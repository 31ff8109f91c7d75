/**
 The claims registry: a strict YAML subset read line by line, and a printer for it.
 Reading what the printer wrote gives the entries back.
 */
module ClaimsRegistry {
  import opened Wrappers
  import opened Text

  datatype Error =
    | Tab(line: nat)
    | UnsupportedEscape(line: nat)
    | TextAfterQuote(line: nat)
    | Unterminated(line: nat)
    | EmptyValue(line: nat)
    | UnsupportedSyntax(line: nat)
    | NeedsQuoting(line: nat)
    | UnexpectedLine(line: nat)
    | ExpectedKey(line: nat)
    | DuplicateKey(line: nat)

  datatype Value = Scalar(s: string) | List(items: seq<string>)

  // `line` is the entry's own `_line` key, so no field may have that name.
  datatype Entry = Entry(line: nat, fields: map<string, Value>)

  // --- scalars ---------------------------------------------------------------

  // The rest of a double-quoted scalar from i, after the characters read so far.
  function DoubleFrom(raw: string, i: nat, out: string, line: nat): Result<string, Error>
    requires i <= |raw|
    decreases |raw| - i
  {
    if i == |raw| then Err(Unterminated(line))
    else if raw[i] == '\\' then
      if i + 1 < |raw| && raw[i + 1] in ['"', '\\'] then DoubleFrom(raw, i + 2, out + [raw[i + 1]], line)
      else Err(UnsupportedEscape(line))
    else if raw[i] == '"' then
      if Strip(raw[i + 1..]) != "" then Err(TextAfterQuote(line)) else Ok(out)
    else DoubleFrom(raw, i + 1, out + [raw[i]], line)
  }

  // The same for a single-quoted scalar, where a doubled quote stands for one.
  function SingleFrom(raw: string, i: nat, out: string, line: nat): Result<string, Error>
    requires i <= |raw|
    decreases |raw| - i
  {
    if i == |raw| then Err(Unterminated(line))
    else if raw[i] == '\'' then
      if i + 1 < |raw| && raw[i + 1] == '\'' then SingleFrom(raw, i + 2, out + ['\''], line)
      else if Strip(raw[i + 1..]) != "" then Err(TextAfterQuote(line)) else Ok(out)
    else SingleFrom(raw, i + 1, out + [raw[i]], line)
  }

  const SPECIAL: string := "[]{}|>&*!%@`#,?"

  predicate PlainNeedsQuoting(raw: string) {
    Contains(raw, " #") || Contains(raw, ": ") || (raw != "" && raw[|raw| - 1] == ':')
  }

  function ScalarOf(text: string, line: nat): Result<string, Error> {
    var raw := Strip(text);
    if raw == "" then Err(EmptyValue(line))
    else if raw[0] == '"' then DoubleFrom(raw, 1, "", line)
    else if raw[0] == '\'' then SingleFrom(raw, 1, "", line)
    else if raw[0] in SPECIAL then Err(UnsupportedSyntax(line))
    else if PlainNeedsQuoting(raw) then Err(NeedsQuoting(line))
    else Ok(raw)
  }

  method ReadDouble(raw: string, line: nat) returns (r: Result<string, Error>)
    requires raw != ""
    ensures r == DoubleFrom(raw, 1, "", line)
  {
    var out, i := "", 1;
    while i < |raw|
      invariant 1 <= i <= |raw| && DoubleFrom(raw, i, out, line) == DoubleFrom(raw, 1, "", line)
      decreases |raw| - i
    {
      var c := raw[i];
      if c == '\\' {
        if !(i + 1 < |raw| && raw[i + 1] in ['"', '\\']) {
          return Err(UnsupportedEscape(line));
        }
        out, i := out + [raw[i + 1]], i + 2;
      } else if c == '"' {
        if Strip(raw[i + 1..]) != "" {
          return Err(TextAfterQuote(line));
        }
        return Ok(out);
      } else {
        out, i := out + [c], i + 1;
      }
    }
    r := Err(Unterminated(line));
  }

  method ReadSingle(raw: string, line: nat) returns (r: Result<string, Error>)
    requires raw != ""
    ensures r == SingleFrom(raw, 1, "", line)
  {
    var out, i := "", 1;
    while i < |raw|
      invariant 1 <= i <= |raw| && SingleFrom(raw, i, out, line) == SingleFrom(raw, 1, "", line)
      decreases |raw| - i
    {
      if raw[i] == '\'' {
        if i + 1 < |raw| && raw[i + 1] == '\'' {
          out, i := out + ['\''], i + 2;
        } else if Strip(raw[i + 1..]) != "" {
          return Err(TextAfterQuote(line));
        } else {
          return Ok(out);
        }
      } else {
        out, i := out + [raw[i]], i + 1;
      }
    }
    r := Err(Unterminated(line));
  }

  method ReadScalar(text: string, line: nat) returns (r: Result<string, Error>)
    ensures r == ScalarOf(text, line)
  {
    var raw := Strip(text);
    if raw == "" {
      r := Err(EmptyValue(line));
    } else if raw[0] == '"' {
      r := ReadDouble(raw, line);
    } else if raw[0] == '\'' {
      r := ReadSingle(raw, line);
    } else if raw[0] in SPECIAL {
      r := Err(UnsupportedSyntax(line));
    } else if PlainNeedsQuoting(raw) {
      r := Err(NeedsQuoting(line));
    } else {
      r := Ok(raw);
    }
  }

  // --- lines -----------------------------------------------------------------

  predicate KeyChar(c: char) { 'a' <= c <= 'z' || c == '_' }

  function KeyRun(s: string): (k: nat)
    ensures k <= |s| && (forall i :: 0 <= i < k ==> KeyChar(s[i])) && (k < |s| ==> !KeyChar(s[k]))
  {
    if s == "" || !KeyChar(s[0]) then 0 else 1 + KeyRun(s[1..])
  }

  // `key:` or `key: value`.
  function MatchKey(body: string): Option<(string, string)> {
    var k := KeyRun(body);
    if k == 0 || k == |body| || body[k] != ':' then None
    else if k + 1 == |body| then Some((body[..k], ""))
    else if body[k + 1] == ' ' then Some((body[..k], body[k + 2..]))
    else None
  }

  // The entries so far, the last one open; the key awaiting list items; the key whose
  // plain scalar may go on.
  datatype State = State(entries: seq<Entry>, pending: Option<string>, folding: Option<string>)

  function Last(st: State): Entry
    requires st.entries != []
  {
    st.entries[|st.entries| - 1]
  }

  ghost predicate Valid(st: State) {
    && (st.entries == [] ==> st.pending.None? && st.folding.None?)
    && (st.pending.None? || st.folding.None?)
    && (st.pending.Some? ==> st.pending.value in Last(st).fields && Last(st).fields[st.pending.value].List?)
    && (st.folding.Some? ==> st.folding.value in Last(st).fields && Last(st).fields[st.folding.value].Scalar?)
  }

  function SetField(st: State, key: string, v: Value): (r: State)
    requires st.entries != []
    ensures |r.entries| == |st.entries|
  {
    var e := Last(st);
    st.(entries := st.entries[..|st.entries| - 1] + [e.(fields := e.fields[key := v])])
  }

  function AddKey(st: State, body: string, line: nat): (r: Result<State, Error>)
    requires st.entries != []
    ensures r.Ok? ==> Valid(r.value)
  {
    match MatchKey(body)
    case None => Err(ExpectedKey(line))
    case Some((key, value)) =>
      if key in Last(st).fields || key == "_line" then Err(DuplicateKey(line))
      else if Strip(value) == "" then Ok(SetField(st, key, List([])).(pending := Some(key), folding := None))
      else if Strip(value) == "[]" then Ok(SetField(st, key, List([])).(pending := None, folding := None))
      else
        match ScalarOf(value, line)
        case Err(e) => Err(e)
        case Ok(s) =>
          var plain := Strip(value)[0] !in ['\'', '"'];
          Ok(SetField(st, key, Scalar(s)).(pending := None, folding := if plain then Some(key) else None))
  }

  function Step(st: State, text: string, line: nat): (r: Result<State, Error>)
    requires Valid(st)
    ensures r.Ok? ==> Valid(r.value)
  {
    var stripped := Strip(text);
    if '\t' in text then Err(Tab(line))
    else if stripped == "" || "#" <= LStrip(text) then Ok(st.(folding := None))
    else if "- " <= text then
      AddKey(State(st.entries + [Entry(line, map[])], None, None), text[2..], line)
    else if st.pending.Some? && Indent(text) == 4 && "- " <= stripped then
      match ScalarOf(stripped[2..], line)
      case Err(e) => Err(e)
      case Ok(s) => Ok(SetField(st, st.pending.value, List(Last(st).fields[st.pending.value].items + [s])))
    else if st.folding.Some? && Indent(text) > 2 then
      match ScalarOf(stripped, line)
      case Err(e) => Err(e)
      case Ok(s) => Ok(SetField(st, st.folding.value, Scalar(Last(st).fields[st.folding.value].s + " " + s)))
    else if st.entries != [] && Indent(text) == 2 then AddKey(st, text[2..], line)
    else Err(UnexpectedLine(line))
  }

  // Reading the lines from number `line` on.
  function ParseFrom(st: State, lines: seq<string>, line: nat): (r: Result<State, Error>)
    requires Valid(st)
    ensures r.Ok? ==> Valid(r.value)
    decreases |lines|
  {
    if lines == [] then Ok(st)
    else
      match Step(st, lines[0], line)
      case Err(e) => Err(e)
      case Ok(next) => ParseFrom(next, lines[1..], line + 1)
  }

  const START := State([], None, None)

  function Parse(lines: seq<string>): Result<seq<Entry>, Error> {
    match ParseFrom(START, lines, 1)
    case Err(e) => Err(e)
    case Ok(st) => Ok(st.entries)
  }

  // The loop over the lines, with the open entry updated as its fields are read.
  method ParseRegistry(lines: seq<string>) returns (r: Result<seq<Entry>, Error>)
    ensures r == Parse(lines)
  {
    hide ScalarOf, Strip, LStrip, Indent;
    var st := START;
    for n := 0 to |lines|
      invariant Valid(st) && ParseFrom(st, lines[n..], n + 1) == ParseFrom(START, lines, 1)
    {
      assert lines[n..][0] == lines[n] && lines[n..][1..] == lines[n + 1..];
      var next := ReadLine(st, lines[n], n + 1);
      if next.Err? {
        return Err(next.error);
      }
      st := next.value;
    }
    r := Ok(st.entries);
  }

  // One turn of it.
  method ReadLine(st: State, text: string, line: nat) returns (r: Result<State, Error>)
    requires Valid(st)
    ensures r == Step(st, text, line)
  {
    hide ScalarOf, Strip, LStrip, Indent, MatchKey;
    if '\t' in text {
      return Err(Tab(line));
    }
    var stripped := Strip(text);
    if stripped == "" || "#" <= LStrip(text) {
      return Ok(st.(folding := None));
    }
    var indent := Indent(text);
    var entries, body := st.entries, "";
    if "- " <= text {
      entries, body := entries + [Entry(line, map[])], text[2..];
    } else if st.pending.Some? && indent == 4 && "- " <= stripped {
      var item := ReadScalar(stripped[2..], line);
      if item.Err? {
        return Err(item.error);
      }
      var key := st.pending.value;
      return Ok(SetField(st, key, List(Last(st).fields[key].items + [item.value])));
    } else if st.folding.Some? && indent > 2 {
      var more := ReadScalar(stripped, line);
      if more.Err? {
        return Err(more.error);
      }
      var key := st.folding.value;
      return Ok(SetField(st, key, Scalar(Last(st).fields[key].s + " " + more.value)));
    } else if entries != [] && indent == 2 {
      body := text[2..];
    } else {
      return Err(UnexpectedLine(line));
    }
    r := ReadKey(State(entries, None, None), body, line);
  }

  method ReadKey(st: State, body: string, line: nat) returns (r: Result<State, Error>)
    requires st.entries != [] && st.pending.None? && st.folding.None?
    ensures forall st': State :: st'.entries == st.entries ==> r == AddKey(st', body, line)
  {
    hide ScalarOf;
    var m := MatchKey(body);
    if m.None? {
      return Err(ExpectedKey(line));
    }
    var (key, value) := m.value;
    if key in Last(st).fields || key == "_line" {
      return Err(DuplicateKey(line));
    }
    var v := Strip(value);
    if v == "" {
      r := Ok(SetField(st, key, List([])).(pending := Some(key)));
    } else if v == "[]" {
      r := Ok(SetField(st, key, List([])));
    } else {
      var s := ReadScalar(value, line);
      if s.Err? {
        return Err(s.error);
      }
      r := Ok(SetField(st, key, Scalar(s.value)).(folding := if v[0] !in ['\'', '"'] then Some(key) else None));
    }
  }
}
