/**
 A printer for the registry subset, in every form the reader knows, and the round trip
 through it.
 */
module ClaimsRoundTrip {
  import opened Wrappers
  import opened Text
  import opened ClaimsRegistry

  // --- quoting ---------------------------------------------------------------

  datatype Quoted = InDouble(s: string) | InSingle(s: string) | Bare(s: string)

  function EscapeDouble(s: string): string {
    if s == "" then "" else (if s[0] in ['"', '\\'] then ['\\', s[0]] else [s[0]]) + EscapeDouble(s[1..])
  }

  function EscapeSingle(s: string): string {
    if s == "" then "" else (if s[0] == '\'' then "''" else [s[0]]) + EscapeSingle(s[1..])
  }

  function Written(q: Quoted): string {
    match q
    case InDouble(s) => "\"" + EscapeDouble(s) + "\""
    case InSingle(s) => "'" + EscapeSingle(s) + "'"
    case Bare(s) => s
  }

  predicate BreaksLine(c: char) {
    c in ['\n', '\U{b}', '\U{c}', '\r', '\U{1c}', '\U{1d}', '\U{1e}', '\U{85}', '\U{2028}', '\U{2029}']
  }

  predicate OneLine(s: string) {
    forall i :: 0 <= i < |s| ==> s[i] != '\t' && !BreaksLine(s[i])
  }

  // What can stand without quotes.
  predicate PlainSafe(s: string) {
    && s != "" && !White(s[0]) && !White(s[|s| - 1])
    && s[0] !in SPECIAL && s[0] !in ['\'', '"'] && !PlainNeedsQuoting(s)
  }

  predicate Printable(q: Quoted) {
    OneLine(q.s) && (q.Bare? ==> PlainSafe(q.s))
  }

  lemma {:induction false} DoubleUndone(raw: string, i: nat, s: string, out: string, line: nat)
    requires i <= |raw| && raw[i..] == EscapeDouble(s) + "\""
    ensures DoubleFrom(raw, i, out, line) == Ok(out + s)
    decreases |s|
  {
    if s == "" {
      assert raw[i] == raw[i..][0] && raw[i + 1..] == raw[i..][1..] == "";
      assert out + s == out;
    } else {
      var rest := EscapeDouble(s[1..]) + "\"";
      if s[0] in ['"', '\\'] {
        assert raw[i..] == ['\\', s[0]] + rest;
        assert raw[i] == raw[i..][0] && raw[i + 1] == raw[i..][1] && raw[i + 2..] == raw[i..][2..] == rest;
        DoubleUndone(raw, i + 2, s[1..], out + [s[0]], line);
      } else {
        assert raw[i..] == [s[0]] + rest;
        assert raw[i] == raw[i..][0] && raw[i + 1..] == raw[i..][1..] == rest;
        DoubleUndone(raw, i + 1, s[1..], out + [s[0]], line);
      }
      assert out + [s[0]] + s[1..] == out + s;
    }
  }

  lemma {:induction false} SingleUndone(raw: string, i: nat, s: string, out: string, line: nat)
    requires i <= |raw| && raw[i..] == EscapeSingle(s) + "'"
    ensures SingleFrom(raw, i, out, line) == Ok(out + s)
    decreases |s|
  {
    if s == "" {
      assert raw[i] == raw[i..][0] && raw[i + 1..] == raw[i..][1..] == "";
      assert out + s == out;
    } else {
      var rest := EscapeSingle(s[1..]) + "'";
      if s[0] == '\'' {
        assert raw[i..] == "''" + rest;
        assert raw[i] == raw[i..][0] && raw[i + 1] == raw[i..][1] && raw[i + 2..] == raw[i..][2..] == rest;
        SingleUndone(raw, i + 2, s[1..], out + [s[0]], line);
      } else {
        assert raw[i..] == [s[0]] + rest;
        assert raw[i] == raw[i..][0] && raw[i + 1..] == raw[i..][1..] == rest;
        SingleUndone(raw, i + 1, s[1..], out + [s[0]], line);
      }
      assert out + [s[0]] + s[1..] == out + s;
    }
  }

  // No white space at either end of what is written.
  lemma WrittenEnds(q: Quoted)
    requires Printable(q)
    ensures Written(q) != "" && !White(Written(q)[0]) && !White(Written(q)[|Written(q)| - 1])
    ensures q.Bare? <==> Written(q)[0] !in ['\'', '"']
    ensures Written(q)[0] !in SPECIAL
  {
    hide White, EscapeDouble, EscapeSingle;
    QuotesPlain();
    if q.InDouble? {
      assert Written(q)[|Written(q)| - 1] == '"';
    } else if q.InSingle? {
      assert Written(q)[|Written(q)| - 1] == '\'';
    }
  }

  lemma QuotesPlain()
    ensures !White('"') && !White('\'') && '"' !in SPECIAL && '\'' !in SPECIAL
  {
  }

  // Both quoting styles undo their escapes, and a safe plain scalar is itself.
  lemma ScalarUndone(q: Quoted, line: nat)
    requires Printable(q)
    ensures ScalarOf(Written(q), line) == Ok(q.s)
  {
    hide PlainNeedsQuoting, White, EscapeDouble, EscapeSingle, DoubleFrom, SingleFrom, Strip;
    var raw := Written(q);
    WrittenEnds(q);
    StripPadded(0, raw);
    match q {
      case InDouble(s) =>
        assert raw[1..] == EscapeDouble(s) + "\"";
        DoubleUndone(raw, 1, s, "", line);
        assert "" + s == s;
      case InSingle(s) =>
        assert raw[1..] == EscapeSingle(s) + "'";
        SingleUndone(raw, 1, s, "", line);
        assert "" + s == s;
      case Bare(s) =>
    }
  }

  lemma {:induction false} NoTab(s: string)
    requires OneLine(s)
    ensures '\t' !in EscapeDouble(s) && '\t' !in EscapeSingle(s) && '\t' !in s
  {
    if s != "" { NoTab(s[1..]); }
  }

  // --- the printer -----------------------------------------------------------

  // A scalar, with the plain lines it goes on over; or a list.
  datatype Form = Scalars(first: Quoted, more: seq<string>) | Items(qs: seq<Quoted>)

  datatype Field = Field(key: string, form: Form)

  function Folded(s: string, more: seq<string>): string
    decreases |more|
  {
    if more == [] then s else Folded(s + " " + more[0], more[1..])
  }

  function Contents(qs: seq<Quoted>): (r: seq<string>)
    ensures |r| == |qs| && forall i :: 0 <= i < |qs| ==> r[i] == qs[i].s
  {
    seq(|qs|, i requires 0 <= i < |qs| => qs[i].s)
  }

  function Meaning(form: Form): Value {
    match form
    case Scalars(first, more) => Scalar(Folded(first.s, more))
    case Items(qs) => List(Contents(qs))
  }

  function MoreLines(more: seq<string>): seq<string> {
    if more == [] then [] else ["    " + more[0]] + MoreLines(more[1..])
  }

  function ItemLines(qs: seq<Quoted>): seq<string> {
    if qs == [] then [] else ["    - " + Written(qs[0])] + ItemLines(qs[1..])
  }

  function FieldLines(prefix: string, f: Field): seq<string> {
    match f.form
    case Scalars(first, more) => [prefix + f.key + ": " + Written(first)] + MoreLines(more)
    case Items(qs) =>
      if qs == [] then [prefix + f.key + ": []"] else [prefix + f.key + ":"] + ItemLines(qs)
  }

  function RestLines(fields: seq<Field>): seq<string> {
    if fields == [] then [] else FieldLines("  ", fields[0]) + RestLines(fields[1..])
  }

  function EntryLines(fields: seq<Field>): seq<string>
    requires fields != []
  {
    FieldLines("- ", fields[0]) + RestLines(fields[1..])
  }

  predicate PrintableForm(form: Form) {
    match form
    case Scalars(first, more) =>
      && Printable(first) && (more != [] ==> first.Bare?)
      && forall i :: 0 <= i < |more| ==> OneLine(more[i]) && PlainSafe(more[i])
    case Items(qs) => forall i :: 0 <= i < |qs| ==> Printable(qs[i])
  }

  predicate LegibleKey(key: string) {
    key != "" && forall i :: 0 <= i < |key| ==> KeyChar(key[i])
  }

  predicate PrintableKey(key: string) { LegibleKey(key) && key != "_line" }

  predicate LegibleField(f: Field) { LegibleKey(f.key) && PrintableForm(f.form) }

  predicate PrintableField(f: Field) { PrintableKey(f.key) && PrintableForm(f.form) }

  ghost predicate PrintableEntry(fields: seq<Field>) {
    && fields != [] && (forall i :: 0 <= i < |fields| ==> PrintableField(fields[i]))
    && forall i, j :: 0 <= i < j < |fields| ==> fields[i].key != fields[j].key
  }

  function FieldMap(m: map<string, Value>, fields: seq<Field>): map<string, Value>
    decreases |fields|
  {
    if fields == [] then m else FieldMap(m[fields[0].key := Meaning(fields[0].form)], fields[1..])
  }

  // --- one line --------------------------------------------------------------

  lemma {:induction false} KeyRunExact(key: string, rest: string)
    requires (forall i :: 0 <= i < |key| ==> KeyChar(key[i])) && rest != "" && !KeyChar(rest[0])
    ensures KeyRun(key + rest) == |key|
  {
    if key == "" {
      assert key + rest == rest;
    } else {
      KeyRunExact(key[1..], rest);
      assert (key + rest)[1..] == key[1..] + rest;
    }
  }

  lemma KeyMatched(key: string, value: string)
    requires LegibleKey(key)
    ensures MatchKey(key + ": " + value) == Some((key, value))
    ensures MatchKey(key + ":") == Some((key, ""))
  {
    var body := key + ": " + value;
    KeyRunExact(key, ": " + value);
    assert body == key + (": " + value);
    assert body[..|key|] == key && body[|key| + 2..] == value;
    KeyRunExact(key, ":");
    assert (key + ":")[..|key|] == key;
  }

  // After a key line with a scalar.
  lemma ScalarKey(st: State, key: string, q: Quoted, line: nat)
    requires st.entries != [] && key !in Last(st).fields && PrintableKey(key) && Printable(q)
    ensures AddKey(st, key + ": " + Written(q), line)
            == Ok(SetField(st, key, Scalar(q.s)).(pending := None, folding := if q.Bare? then Some(key) else None))
  {
    hide White, PlainNeedsQuoting, SetField, MatchKey, ScalarOf;
    KeyMatched(key, Written(q));
    WrittenEnds(q);
    StripPadded(0, Written(q));
    ScalarUndone(q, line);
    assert Written(q) != "[]" by { assert "[]"[0] in SPECIAL; }
  }

  lemma ListKey(st: State, key: string, line: nat)
    requires st.entries != [] && key !in Last(st).fields && PrintableKey(key)
    ensures AddKey(st, key + ":", line) == Ok(SetField(st, key, List([])).(pending := Some(key), folding := None))
    ensures AddKey(st, key + ": []", line) == Ok(SetField(st, key, List([])).(pending := None, folding := None))
  {
    hide SetField, MatchKey, ScalarOf;
    KeyMatched(key, "[]");
    assert key + ": " + "[]" == key + ": []";
    StripPadded(0, "[]");
  }

  // The line that opens an entry.
  lemma EntryLine(st: State, body: string, line: nat)
    requires Valid(st) && '\t' !in body
    ensures Step(st, "- " + body, line) == AddKey(State(st.entries + [Entry(line, map[])], None, None), body, line)
  {
    hide AddKey, White;
    var text := "- " + body;
    DashNotWhite();
    LStripPadded(0, text);
    assert Spaces(0) + text == text && LStrip(text) == text;
    RStripFirst(text);
    assert text[2..] == body;
    assert !("#" <= text) by { assert text[0] == '-'; }
    assert '\t' !in text;
  }

  lemma DashNotWhite()
    ensures !White('-') && !White('#') && White(' ')
  {
  }

  lemma KeyCharsPlain(c: char)
    requires KeyChar(c)
    ensures !White(c) && c != '#' && c != ' ' && c != '-'
  {
  }

  // A further key line.
  lemma FieldLine(st: State, body: string, line: nat)
    requires Valid(st) && st.entries != [] && body != "" && KeyChar(body[0]) && '\t' !in body
    ensures Step(st, "  " + body, line) == AddKey(st, body, line)
  {
    hide AddKey, White, KeyChar;
    var text := "  " + body;
    KeyCharsPlain(body[0]);
    LStripPadded(2, body);
    RStripFirst(body);
    IndentPadded(2, body);
    assert Spaces(2) == "  ";
    assert text[2..] == body;
    assert !("#" <= body) && !("- " <= text) by { assert text[0] == ' '; }
    assert '\t' !in text;
  }

  // A list item.
  lemma ItemLine(st: State, q: Quoted, line: nat)
    requires Valid(st) && st.pending.Some? && Printable(q) && '\t' !in Written(q)
    ensures var key := st.pending.value;
            Step(st, "    - " + Written(q), line)
            == Ok(SetField(st, key, List(Last(st).fields[key].items + [q.s])))
  {
    hide AddKey, White, ScalarOf, SetField, Written, Printable;
    var w := "- " + Written(q);
    var text := "    - " + Written(q);
    DashNotWhite();
    WrittenEnds(q);
    assert Spaces(4) == "    " && text == Spaces(4) + w;
    assert w[|w| - 1] == Written(q)[|Written(q)| - 1];
    StripPadded(4, w);
    LStripPadded(4, w);
    IndentPadded(4, w);
    assert w[2..] == Written(q);
    ScalarUndone(q, line);
    assert !("#" <= w) && !("- " <= text) by { assert w[0] == '-' && text[0] == ' '; }
    assert '\t' !in text;
  }

  // A line a plain scalar goes on over.
  lemma MoreLine(st: State, m: string, line: nat)
    requires Valid(st) && st.folding.Some? && PlainSafe(m) && OneLine(m)
    ensures var key := st.folding.value;
            Step(st, "    " + m, line) == Ok(SetField(st, key, Scalar(Last(st).fields[key].s + " " + m)))
  {
    hide AddKey, White, ScalarOf, SetField, PlainNeedsQuoting;
    var text := "    " + m;
    DashNotWhite();
    assert Spaces(4) == "    ";
    StripPadded(4, m);
    LStripPadded(4, m);
    IndentPadded(4, m);
    ScalarUndone(Bare(m), line);
    assert !("#" <= m) by { assert '#' in SPECIAL; }
    assert !("- " <= text) by { assert text[0] == ' '; }
    NoTab(m);
    assert '\t' !in text;
  }

  // --- several lines ---------------------------------------------------------

  lemma {:induction false} ParseConcat(st: State, a: seq<string>, b: seq<string>, line: nat)
    requires Valid(st) && ParseFrom(st, a, line).Ok?
    ensures ParseFrom(st, a + b, line) == ParseFrom(ParseFrom(st, a, line).value, b, line + |a|)
    decreases |a|
  {
    hide Step;
    if a == [] {
      assert a + b == b;
    } else {
      assert (a + b)[0] == a[0] && (a + b)[1..] == a[1..] + b;
      ParseConcat(Step(st, a[0], line).value, a[1..], b, line + 1);
    }
  }

  lemma SetTwice(st: State, key: string, v: Value, w: Value)
    requires st.entries != []
    ensures SetField(SetField(st, key, v), key, w) == SetField(st, key, w)
    ensures Last(SetField(st, key, v)).fields == Last(st).fields[key := v]
    ensures Last(SetField(st, key, v)).line == Last(st).line
  {
    var e, n := Last(st), |st.entries| - 1;
    assert e.fields[key := v][key := w] == e.fields[key := w];
    assert SetField(st, key, v).entries[..n] == st.entries[..n];
  }

  lemma SetSame(st: State, key: string)
    requires st.entries != [] && key in Last(st).fields
    ensures SetField(st, key, Last(st).fields[key]) == st
  {
    var e := Last(st);
    assert e.fields[key := e.fields[key]] == e.fields;
    assert st.entries == st.entries[..|st.entries| - 1] + [e];
  }

  lemma {:induction false} ItemsParsed(st: State, qs: seq<Quoted>, line: nat)
    requires Valid(st) && st.pending.Some? && PrintableForm(Items(qs))
    ensures var key := st.pending.value;
            ParseFrom(st, ItemLines(qs), line)
            == Ok(SetField(st, key, List(Last(st).fields[key].items + Contents(qs))))
    decreases |qs|
  {
    hide Step, SetField, Written, Printable;
    var key := st.pending.value;
    var items := Last(st).fields[key].items;
    if qs == [] {
      assert items + Contents(qs) == items;
      SetSame(st, key);
    } else {
      WrittenNoTab(qs[0]);
      ItemLine(st, qs[0], line);
      var v := List(items + [qs[0].s]);
      var next := SetField(st, key, v);
      assert Step(st, "    - " + Written(qs[0]), line) == Ok(next);
      SetTwice(st, key, v, List(items + Contents(qs)));
      PendingKept(st, key, v);
      ItemsParsed(next, qs[1..], line + 1);
      assert items + [qs[0].s] + Contents(qs[1..]) == items + Contents(qs);
      assert ItemLines(qs)[0] == "    - " + Written(qs[0]) && ItemLines(qs)[1..] == ItemLines(qs[1..]);
    }
  }

  lemma PendingKept(st: State, key: string, v: Value)
    requires st.entries != []
    ensures var r := SetField(st, key, v);
            r.pending == st.pending && r.folding == st.folding && |r.entries| == |st.entries|
  {
  }

  lemma WrittenNoTab(q: Quoted)
    requires Printable(q)
    ensures '\t' !in Written(q)
  {
    NoTab(q.s);
  }

  lemma {:induction false} MoreParsed(st: State, more: seq<string>, line: nat)
    requires Valid(st) && st.folding.Some?
    requires forall i :: 0 <= i < |more| ==> OneLine(more[i]) && PlainSafe(more[i])
    ensures var key := st.folding.value;
            ParseFrom(st, MoreLines(more), line) == Ok(SetField(st, key, Scalar(Folded(Last(st).fields[key].s, more))))
    decreases |more|
  {
    hide Step, SetField, PlainSafe, OneLine;
    var key := st.folding.value;
    var s := Last(st).fields[key].s;
    if more == [] {
      SetSame(st, key);
    } else {
      MoreLine(st, more[0], line);
      var v := Scalar(s + " " + more[0]);
      var next := SetField(st, key, v);
      assert Step(st, "    " + more[0], line) == Ok(next);
      SetTwice(st, key, v, Scalar(Folded(s, more)));
      PendingKept(st, key, v);
      MoreParsed(next, more[1..], line + 1);
      assert MoreLines(more)[0] == "    " + more[0] && MoreLines(more)[1..] == MoreLines(more[1..]);
    }
  }

  // --- one field -------------------------------------------------------------

  // The text of a field's key line after its prefix.
  function KeyBody(f: Field): string {
    match f.form
    case Scalars(first, _) => f.key + ": " + Written(first)
    case Items(qs) => if qs == [] then f.key + ": []" else f.key + ":"
  }

  function TailLines(f: Field): seq<string> {
    match f.form case Scalars(_, more) => MoreLines(more) case Items(qs) => ItemLines(qs)
  }

  lemma FieldLinesSplit(prefix: string, f: Field)
    ensures FieldLines(prefix, f) == [prefix + KeyBody(f)] + TailLines(f)
  {
    match f.form {
      case Scalars(first, more) =>
        assert prefix + f.key + ": " + Written(first) == prefix + KeyBody(f);
      case Items(qs) =>
        assert prefix + f.key + ": []" == prefix + (f.key + ": []");
        assert prefix + f.key + ":" == prefix + (f.key + ":");
    }
  }

  lemma PrintableLegible(f: Field)
    requires PrintableField(f)
    ensures LegibleField(f)
  {
  }

  lemma KeyBodyFacts(f: Field)
    requires LegibleField(f)
    ensures KeyBody(f) != "" && KeyChar(KeyBody(f)[0]) && '\t' !in KeyBody(f)
  {
    assert KeyBody(f)[0] == f.key[0];
    assert '\t' !in f.key;
    if f.form.Scalars? { WrittenNoTab(f.form.first); }
  }

  // The lines of a field add it to the open entry, whichever way its key line is led in.
  lemma FieldParsed(st: State, open: State, prefix: string, f: Field, line: nat)
    requires Valid(st) && open.entries != [] && PrintableField(f) && f.key !in Last(open).fields
    requires Step(st, prefix + KeyBody(f), line) == AddKey(open, KeyBody(f), line)
    ensures var r := ParseFrom(st, FieldLines(prefix, f), line);
            r.Ok? && r.value.entries == SetField(open, f.key, Meaning(f.form)).entries
  {
    hide Step, Printable, PrintableKey, SetField;
    FieldLinesSplit(prefix, f);
    var lines := FieldLines(prefix, f);
    assert lines[0] == prefix + KeyBody(f) && lines[1..] == TailLines(f);
    match f.form {
      case Scalars(first, more) =>
        ScalarKey(open, f.key, first, line);
        var s1 := AddKey(open, KeyBody(f), line).value;
        AfterKey(open, f.key, Scalar(first.s), s1);
        if more != [] {
          MoreParsed(s1, more, line + 1);
          AfterTail(open, f.key, Scalar(first.s), s1, Meaning(f.form));
        }
      case Items(qs) =>
        ListKey(open, f.key, line);
        var s1 := AddKey(open, KeyBody(f), line).value;
        AfterKey(open, f.key, List([]), s1);
        if qs != [] {
          ItemsParsed(s1, qs, line + 1);
          assert [] + Contents(qs) == Contents(qs);
          AfterTail(open, f.key, List([]), s1, Meaning(f.form));
        }
    }
  }

  lemma AfterKey(open: State, key: string, v: Value, s1: State)
    requires open.entries != [] && s1.entries == SetField(open, key, v).entries
    ensures s1.entries != [] && key in Last(s1).fields && Last(s1).fields[key] == v
  {
  }

  lemma AfterTail(open: State, key: string, v: Value, s1: State, w: Value)
    requires open.entries != [] && s1.entries == SetField(open, key, v).entries && s1.entries != []
    ensures SetField(s1, key, w).entries == SetField(open, key, w).entries
  {
    SetTwice(open, key, v, w);
  }

  // --- one entry, and all of them --------------------------------------------

  // Fields that can still be added to the open entry.
  ghost predicate Fresh(m: map<string, Value>, fields: seq<Field>) {
    && (forall i :: 0 <= i < |fields| ==> PrintableField(fields[i]) && fields[i].key !in m)
    && forall i, j :: 0 <= i < j < |fields| ==> fields[i].key != fields[j].key
  }

  // The entries with the open one's fields replaced.
  function Reopened(st: State, fields: map<string, Value>): seq<Entry>
    requires st.entries != []
  {
    st.entries[..|st.entries| - 1] + [Entry(Last(st).line, fields)]
  }

  lemma FreshTail(m: map<string, Value>, fields: seq<Field>, v: Value)
    requires fields != [] && Fresh(m, fields)
    ensures Fresh(m[fields[0].key := v], fields[1..])
  {
  }

  lemma {:induction false} RestParsed(st: State, fields: seq<Field>, line: nat)
    requires Valid(st) && st.entries != [] && Fresh(Last(st).fields, fields)
    ensures var r := ParseFrom(st, RestLines(fields), line);
            r.Ok? && r.value.entries == Reopened(st, FieldMap(Last(st).fields, fields))
    decreases |fields|
  {
    hide Step, PrintableField, FieldLines, Meaning, ParseFrom, RestLines, AddKey, SetField, KeyBody;
    RestUnfold(st, fields, line);
    if fields == [] {
      assert st.entries == Reopened(st, Last(st).fields);
    } else {
      var f := fields[0];
      PrintableLegible(f);
      KeyBodyFacts(f);
      FieldLine(st, KeyBody(f), line);
      FieldParsed(st, st, "  ", f, line);
      ParseConcat(st, FieldLines("  ", f), RestLines(fields[1..]), line);
      var next := ParseFrom(st, FieldLines("  ", f), line).value;
      FreshTail(Last(st).fields, fields, Meaning(f.form));
      NextOpen(st, f.key, Meaning(f.form), next);
      RestParsed(next, fields[1..], line + |FieldLines("  ", f)|);
    }
  }

  lemma RestUnfold(st: State, fields: seq<Field>, line: nat)
    requires Valid(st)
    ensures fields == [] ==> ParseFrom(st, RestLines(fields), line) == Ok(st)
    ensures fields != [] ==> RestLines(fields) == FieldLines("  ", fields[0]) + RestLines(fields[1..])
  {
  }

  lemma NextOpen(st: State, key: string, v: Value, next: State)
    requires st.entries != [] && next.entries == SetField(st, key, v).entries
    ensures next.entries != [] && Last(next).fields == Last(st).fields[key := v] && Last(next).line == Last(st).line
    ensures next.entries[..|next.entries| - 1] == st.entries[..|st.entries| - 1] && |next.entries| == |st.entries|
  {
  }

  lemma EntryParsed(st: State, fields: seq<Field>, line: nat)
    requires Valid(st) && PrintableEntry(fields)
    ensures var r := ParseFrom(st, EntryLines(fields), line);
            r.Ok? && r.value.entries == st.entries + [Entry(line, FieldMap(map[], fields))]
  {
    hide Step, PrintableField, FieldLines, Meaning, ParseFrom, AddKey, SetField, KeyBody, RestLines;
    var f := fields[0];
    var open := State(st.entries + [Entry(line, map[])], None, None);
    PrintableLegible(f);
    KeyBodyFacts(f);
    EntryLine(st, KeyBody(f), line);
    FieldParsed(st, open, "- ", f, line);
    ParseConcat(st, FieldLines("- ", f), RestLines(fields[1..]), line);
    var next := ParseFrom(st, FieldLines("- ", f), line).value;
    NextOpen(open, f.key, Meaning(f.form), next);
    assert Fresh(map[], fields);
    FreshTail(map[], fields, Meaning(f.form));
    RestParsed(next, fields[1..], line + |FieldLines("- ", f)|);
    assert open.entries[..|open.entries| - 1] == st.entries;
  }

  function PrintAll(es: seq<seq<Field>>): seq<string>
    requires forall i :: 0 <= i < |es| ==> es[i] != []
  {
    if es == [] then [] else EntryLines(es[0]) + PrintAll(es[1..])
  }

  // What reading should give: the fields of each entry and the line it starts on.
  function Expected(es: seq<seq<Field>>, line: nat): seq<Entry>
    requires forall i :: 0 <= i < |es| ==> es[i] != []
    decreases |es|
  {
    if es == [] then []
    else [Entry(line, FieldMap(map[], es[0]))] + Expected(es[1..], line + |EntryLines(es[0])|)
  }

  ghost predicate PrintableAll(es: seq<seq<Field>>) {
    forall i :: 0 <= i < |es| ==> PrintableEntry(es[i])
  }

  lemma {:induction false} AllParsed(st: State, es: seq<seq<Field>>, line: nat)
    requires Valid(st) && PrintableAll(es)
    ensures var r := ParseFrom(st, PrintAll(es), line); r.Ok? && r.value.entries == st.entries + Expected(es, line)
    decreases |es|
  {
    hide EntryLines, PrintableEntry, FieldMap, ParseFrom, Valid;
    NonemptyAll(es);
    if es == [] {
      ParseNothing(st, line);
    } else {
      EntryParsed(st, es[0], line);
      NonemptyAll(es[1..]);
      ParseConcat(st, EntryLines(es[0]), PrintAll(es[1..]), line);
      var next := ParseFrom(st, EntryLines(es[0]), line).value;
      AllParsed(next, es[1..], line + |EntryLines(es[0])|);
    }
  }

  lemma ParseNothing(st: State, line: nat)
    requires Valid(st)
    ensures ParseFrom(st, [], line) == Ok(st)
  {
  }

  lemma NonemptyAll(es: seq<seq<Field>>)
    requires PrintableAll(es)
    ensures forall i :: 0 <= i < |es| ==> es[i] != []
  {
  }

  // Reading what was printed gives the same entries, each with its starting line.
  lemma RoundTrip(es: seq<seq<Field>>)
    requires PrintableAll(es)
    ensures Parse(PrintAll(es)) == Ok(Expected(es, 1))
  {
    NonemptyAll(es);
    AllParsed(START, es, 1);
    assert [] + Expected(es, 1) == Expected(es, 1);
  }

  // Every printed field is found under its key with its meaning.
  lemma {:induction false} FieldFound(m: map<string, Value>, fields: seq<Field>, i: nat)
    requires Fresh(m, fields) && i < |fields|
    ensures fields[i].key in FieldMap(m, fields) && FieldMap(m, fields)[fields[i].key] == Meaning(fields[i].form)
    decreases |fields|
  {
    FreshTail(m, fields, Meaning(fields[0].form));
    var m1 := m[fields[0].key := Meaning(fields[0].form)];
    if i > 0 {
      FieldFound(m1, fields[1..], i - 1);
    } else {
      FieldKept(m1, fields[1..], fields[0].key);
    }
  }

  lemma {:induction false} FieldKept(m: map<string, Value>, fields: seq<Field>, key: string)
    requires key in m && forall i :: 0 <= i < |fields| ==> fields[i].key != key
    ensures key in FieldMap(m, fields) && FieldMap(m, fields)[key] == m[key]
    decreases |fields|
  {
    if fields != [] { FieldKept(m[fields[0].key := Meaning(fields[0].form)], fields[1..], key); }
  }

  // --- what is refused -------------------------------------------------------

  // Entries that can be written down; their keys may repeat, and one may be _line.
  ghost predicate LegibleEntry(fields: seq<Field>) {
    fields != [] && forall i :: 0 <= i < |fields| ==> LegibleField(fields[i])
  }

  ghost predicate LegibleAll(es: seq<seq<Field>>) {
    forall i :: 0 <= i < |es| ==> LegibleEntry(es[i])
  }

  ghost predicate Refused<T>(r: Result<T, Error>) { r.Err? && r.error.DuplicateKey? }

  // A key that is already there, or is _line, is a duplicate in every form.
  lemma KeyRefused(st: State, f: Field, line: nat)
    requires st.entries != [] && LegibleField(f) && (f.key in Last(st).fields || f.key == "_line")
    ensures AddKey(st, KeyBody(f), line) == Err(DuplicateKey(line))
  {
    hide MatchKey, Strip, ScalarOf, Written, PrintableForm;
    match f.form {
      case Scalars(first, _) => KeyMatched(f.key, Written(first));
      case Items(qs) =>
        KeyMatched(f.key, "[]");
        assert f.key + ": " + "[]" == f.key + ": []";
    }
  }

  lemma FieldRefused(st: State, open: State, prefix: string, f: Field, rest: seq<string>, line: nat)
    requires Valid(st) && open.entries != [] && LegibleField(f) && (f.key in Last(open).fields || f.key == "_line")
    requires Step(st, prefix + KeyBody(f), line) == AddKey(open, KeyBody(f), line)
    ensures Refused(ParseFrom(st, FieldLines(prefix, f) + rest, line))
  {
    hide Step, AddKey, KeyBody, PrintableForm;
    FieldLinesSplit(prefix, f);
    KeyRefused(open, f, line);
    assert (FieldLines(prefix, f) + rest)[0] == prefix + KeyBody(f);
  }

  lemma FreshFrom(m: map<string, Value>, fields: seq<Field>, v: Value)
    requires fields != [] && PrintableField(fields[0]) && fields[0].key !in m
    requires Fresh(m[fields[0].key := v], fields[1..])
    ensures Fresh(m, fields)
  {
    hide PrintableField;
    forall i | 0 <= i < |fields| ensures PrintableField(fields[i]) && fields[i].key !in m {
      if i > 0 { assert fields[i] == fields[1..][i - 1]; }
    }
    forall i, j | 0 <= i < j < |fields| ensures fields[i].key != fields[j].key {
      assert fields[j] == fields[1..][j - 1];
      if i > 0 { assert fields[i] == fields[1..][i - 1]; }
    }
  }

  lemma {:induction false} RestRefused(st: State, fields: seq<Field>, line: nat)
    requires Valid(st) && st.entries != [] && !Fresh(Last(st).fields, fields)
    requires forall i :: 0 <= i < |fields| ==> LegibleField(fields[i])
    ensures Refused(ParseFrom(st, RestLines(fields), line))
    decreases |fields|
  {
    hide Step, FieldLines, Meaning, ParseFrom, RestLines, AddKey, SetField, KeyBody, Fresh, Refused, PrintableForm,
         LegibleKey;
    assert fields != [] by { NothingFresh(Last(st).fields); }
    RestUnfold(st, fields, line);
    var f := fields[0];
    KeyBodyFacts(f);
    FieldLine(st, KeyBody(f), line);
    if f.key in Last(st).fields || f.key == "_line" {
      FieldRefused(st, st, "  ", f, RestLines(fields[1..]), line);
    } else {
      FieldParsed(st, st, "  ", f, line);
      ParseConcat(st, FieldLines("  ", f), RestLines(fields[1..]), line);
      var next := ParseFrom(st, FieldLines("  ", f), line).value;
      NextOpen(st, f.key, Meaning(f.form), next);
      if Fresh(Last(next).fields, fields[1..]) { FreshFrom(Last(st).fields, fields, Meaning(f.form)); }
      RestRefused(next, fields[1..], line + |FieldLines("  ", f)|);
    }
  }

  lemma NothingFresh(m: map<string, Value>)
    ensures Fresh(m, [])
  {
  }

  lemma EntryRefused(st: State, fields: seq<Field>, line: nat)
    requires Valid(st) && LegibleEntry(fields) && !PrintableEntry(fields)
    ensures Refused(ParseFrom(st, EntryLines(fields), line))
  {
    hide Step, FieldLines, Meaning, ParseFrom, AddKey, SetField, KeyBody, RestLines, Refused, PrintableForm, LegibleKey;
    var f := fields[0];
    var open := State(st.entries + [Entry(line, map[])], None, None);
    KeyBodyFacts(f);
    EntryLine(st, KeyBody(f), line);
    if f.key == "_line" {
      FieldRefused(st, open, "- ", f, RestLines(fields[1..]), line);
    } else {
      FieldParsed(st, open, "- ", f, line);
      ParseConcat(st, FieldLines("- ", f), RestLines(fields[1..]), line);
      var next := ParseFrom(st, FieldLines("- ", f), line).value;
      NextOpen(open, f.key, Meaning(f.form), next);
      if Fresh(Last(next).fields, fields[1..]) { FreshFrom(map[], fields, Meaning(f.form)); }
      RestRefused(next, fields[1..], line + |FieldLines("- ", f)|);
    }
  }

  lemma {:induction false} ErrorFirst(st: State, a: seq<string>, b: seq<string>, line: nat)
    requires Valid(st) && ParseFrom(st, a, line).Err?
    ensures ParseFrom(st, a + b, line) == ParseFrom(st, a, line)
    decreases |a|
  {
    hide Step;
    assert (a + b)[0] == a[0] && (a + b)[1..] == a[1..] + b;
    if Step(st, a[0], line).Ok? { ErrorFirst(Step(st, a[0], line).value, a[1..], b, line + 1); }
  }

  lemma LegibleNonempty(es: seq<seq<Field>>)
    requires LegibleAll(es)
    ensures forall i :: 0 <= i < |es| ==> es[i] != []
  {
  }

  lemma {:induction false} AllRefused(st: State, es: seq<seq<Field>>, line: nat)
    requires Valid(st) && LegibleAll(es) && !PrintableAll(es)
    ensures (forall i :: 0 <= i < |es| ==> es[i] != []) && Refused(ParseFrom(st, PrintAll(es), line))
    decreases |es|
  {
    hide EntryLines, PrintableEntry, LegibleEntry, ParseFrom, Valid;
    LegibleNonempty(es);
    var rest := PrintAll(es[1..]);
    if PrintableEntry(es[0]) {
      EntryParsed(st, es[0], line);
      ParseConcat(st, EntryLines(es[0]), rest, line);
      AllRefused(ParseFrom(st, EntryLines(es[0]), line).value, es[1..], line + |EntryLines(es[0])|);
    } else {
      EntryRefused(st, es[0], line);
      ErrorFirst(st, EntryLines(es[0]), rest, line);
    }
  }

  // Keys that differ within each entry, none of them _line.
  ghost predicate KeysKept(es: seq<seq<Field>>) {
    forall n :: 0 <= n < |es| ==> EntryKeysKept(es[n])
  }

  ghost predicate EntryKeysKept(fields: seq<Field>) {
    && (forall i :: 0 <= i < |fields| ==> fields[i].key != "_line")
    && forall i, j :: 0 <= i < j < |fields| ==> fields[i].key != fields[j].key
  }

  // What is written reads back if and only if no entry repeats a key or uses _line;
  // otherwise it is refused for a duplicate key.
  lemma RoundTripIff(es: seq<seq<Field>>)
    requires LegibleAll(es)
    ensures forall i :: 0 <= i < |es| ==> es[i] != []
    ensures KeysKept(es) ==> Parse(PrintAll(es)) == Ok(Expected(es, 1))
    ensures !KeysKept(es) ==> Refused(Parse(PrintAll(es)))
  {
    hide PrintableForm, LegibleKey, PrintAll, Expected, ParseFrom;
    LegibleNonempty(es);
    assert PrintableAll(es) <==> KeysKept(es) by {
      forall n | 0 <= n < |es| ensures PrintableEntry(es[n]) <==> EntryKeysKept(es[n]) { assert LegibleEntry(es[n]); }
    }
    if KeysKept(es) { RoundTrip(es); } else { AllRefused(START, es, 1); }
  }

  // One entry with one field named _line is refused, as a scalar and as a list.
  lemma LineKeyRefused(form: Form)
    requires PrintableForm(form)
    ensures Refused(Parse(PrintAll([[Field("_line", form)]])))
  {
    var f := Field("_line", form);
    var es := [[f]];
    assert [f][0] == f && es[0] == [f] && LegibleEntry([f]);
    assert !EntryKeysKept([f]);
    RoundTripIff(es);
  }
}
