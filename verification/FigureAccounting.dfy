/**
 Where a figure that did not run is accounted for. Each figure is gated on its own, by
 its row or through the figures it derives from; the listing of unrequested rows and
 figures and the list of incomplete reasons are built apart. Together they place every
 not-run figure exactly once and every other figure nowhere.
 */
module FigureAccounting {
  import opened Wrappers
  import opened Sorting

  const NOT_LISTED: string := "not in run.toml states"

  datatype Config = Config(hits: bool, scales: seq<int>, baseline: bool)

  // Why each known state is not live; None for a live one.
  type Live = map<string, Option<string>>

  // A derived figure refers to others and raises for the first one without a value.
  datatype Metric = Measured | Derived(refs: seq<string>, raises: set<string> -> Option<string>)

  datatype Figure = Figure(name: string, states: seq<string>, state: string, metric: Metric)

  datatype Band = Band(key: string, number: int, needsHits: bool, states: seq<string>, scales: seq<int>,
                       needsBaseline: bool, figures: seq<Figure>)

  datatype Status =
    NotRun | HasValue | Missing | NotMeasured | NotComputable | Incomplete | Unsupported | Guarded | Refused | Duplicate

  datatype Why =
    | HitsNotLoaded
    | StatesNotRun(states: seq<string>)
    | ScalesNotListed(scales: seq<int>)
    | NoBaseline
    | Other(text: string)

  // The run's settings that leave a row or figure out.
  datatype Gap = Gap(hits: bool, scales: seq<int>, baseline: bool, states: seq<string>)

  datatype Entry = Entry(id: string, row: int, gated: bool, gap: Option<Gap>, status: Status, why: Why)

  // --- gating ----------------------------------------------------------------

  predicate IsLive(live: Live, s: string) { s in live && live[s].None? }

  predicate IsUnlisted(live: Live, s: string) { s in live && live[s] == Some(NOT_LISTED) }

  function Lacking(states: seq<string>, live: Live): (r: seq<string>)
    ensures r == [] <==> forall i :: 0 <= i < |states| ==> IsLive(live, states[i])
  {
    if states == [] then []
    else (if IsLive(live, states[0]) then [] else [states[0]]) + Lacking(states[1..], live)
  }

  // The unlisted states, each once.
  function Unlisted(states: seq<string>, live: Live): (r: seq<string>)
    ensures r == [] <==> forall i :: 0 <= i < |states| ==> !IsUnlisted(live, states[i])
    ensures forall s :: s in r ==> s in states
  {
    if states == [] then []
    else
      var n := |states| - 1;
      var before := Unlisted(states[..n], live);
      if IsUnlisted(live, states[n]) && states[n] !in states[..n] then before + [states[n]] else before
  }

  function ScalesMissing(scales: seq<int>, have: seq<int>): seq<int> {
    if scales == [] then []
    else (if scales[0] in have then [] else [scales[0]]) + ScalesMissing(scales[1..], have)
  }

  function RowNotRun(b: Band, cfg: Config, live: Live): Option<Why> {
    if b.needsHits && !cfg.hits then Some(HitsNotLoaded)
    else if Lacking(b.states, live) != [] then Some(StatesNotRun(Lacking(b.states, live)))
    else if ScalesMissing(b.scales, cfg.scales) != [] then Some(ScalesNotListed(ScalesMissing(b.scales, cfg.scales)))
    else if b.needsBaseline && !cfg.baseline then Some(NoBaseline)
    else None
  }

  function OwnStates(f: Figure): seq<string> {
    f.states + if f.state != "all" then [f.state] else []
  }

  function FigureNotRun(f: Figure, live: Live): Option<Why> {
    if Lacking(OwnStates(f), live) != [] then Some(StatesNotRun(Lacking(OwnStates(f), live))) else None
  }

  function Unrequested(b: Band, states: seq<string>, cfg: Config, live: Live): Option<Gap> {
    var gap := Gap(b.needsHits && !cfg.hits, ScalesMissing(b.scales, cfg.scales), b.needsBaseline && !cfg.baseline,
                   Unlisted(states, live));
    if gap.hits || gap.scales != [] || gap.baseline || gap.states != [] then Some(gap) else None
  }

  function RowUnrequested(b: Band, cfg: Config, live: Live): Option<Gap> {
    Unrequested(b, b.states, cfg, live)
  }

  function FigureUnrequested(b: Band, f: Figure, cfg: Config, live: Live): Option<Gap> {
    Unrequested(b, b.states + OwnStates(f), cfg, live)
  }

  // A row the run never asked for did not run, and neither of its figures was asked for.
  lemma UnrequestedRow(b: Band, f: Figure, cfg: Config, live: Live)
    requires RowUnrequested(b, cfg, live).Some?
    ensures RowNotRun(b, cfg, live).Some? && FigureUnrequested(b, f, cfg, live).Some?
  {
    if Unlisted(b.states, live) != [] {
      var i :| 0 <= i < |b.states| && IsUnlisted(live, b.states[i]);
      assert !IsLive(live, b.states[i]);
      assert (b.states + OwnStates(f))[i] == b.states[i];
    }
  }

  // Everything a row needs of a run.
  ghost predicate RowRuns(b: Band, cfg: Config, live: Live) {
    && (b.needsHits ==> cfg.hits) && (forall s :: s in b.states ==> IsLive(live, s))
    && (forall k :: k in b.scales ==> k in cfg.scales) && (b.needsBaseline ==> cfg.baseline)
  }

  ghost predicate FigureRuns(f: Figure, live: Live) {
    (forall s :: s in f.states ==> IsLive(live, s)) && (f.state != "all" ==> IsLive(live, f.state))
  }

  // Asked for: no setting of the run leaves the row out, nor a state of row or figure.
  ghost predicate AskedFor(b: Band, f: Figure, cfg: Config, live: Live) {
    && (b.needsHits ==> cfg.hits) && (b.needsBaseline ==> cfg.baseline)
    && (forall k :: k in b.scales ==> k in cfg.scales)
    && (forall s :: s in b.states || s in f.states ==> !IsUnlisted(live, s))
    && (f.state != "all" ==> !IsUnlisted(live, f.state))
  }

  lemma {:induction false} ScalesMissingIff(scales: seq<int>, have: seq<int>)
    ensures ScalesMissing(scales, have) == [] <==> forall k :: k in scales ==> k in have
  {
    if scales != [] {
      ScalesMissingIff(scales[1..], have);
      assert scales == [scales[0]] + scales[1..];
      assert scales[0] in scales && forall k :: k in scales[1..] ==> k in scales;
      assert forall k :: k in scales ==> k == scales[0] || k in scales[1..];
      var rest := ScalesMissing(scales[1..], have);
      assert ScalesMissing(scales, have) == if scales[0] in have then [] + rest else [scales[0]] + rest;
      assert |[scales[0]] + rest| > 0 && [] + rest == rest;
    }
  }

  lemma RowRunsIff(b: Band, cfg: Config, live: Live)
    ensures RowNotRun(b, cfg, live).None? <==> RowRuns(b, cfg, live)
  {
    ScalesMissingIff(b.scales, cfg.scales);
    assert (forall s :: s in b.states ==> IsLive(live, s))
           <==> forall i :: 0 <= i < |b.states| ==> IsLive(live, b.states[i]);
  }

  lemma FigureRunsIff(f: Figure, live: Live)
    ensures FigureNotRun(f, live).None? <==> FigureRuns(f, live)
  {
    var own := OwnStates(f);
    assert forall s :: s in own <==> s in f.states || (f.state != "all" && s == f.state);
    assert (forall s :: s in own ==> IsLive(live, s)) <==> forall i :: 0 <= i < |own| ==> IsLive(live, own[i]);
  }

  lemma AskedForIff(b: Band, f: Figure, cfg: Config, live: Live)
    ensures FigureUnrequested(b, f, cfg, live).None? <==> AskedFor(b, f, cfg, live)
  {
    hide IsUnlisted;
    ScalesMissingIff(b.scales, cfg.scales);
    var all := b.states + OwnStates(f);
    assert forall s :: s in all <==> s in b.states || s in f.states || (f.state != "all" && s == f.state);
    assert (forall s :: s in all ==> !IsUnlisted(live, s))
           <==> forall i :: 0 <= i < |all| ==> !IsUnlisted(live, all[i]);
  }

  // --- run_rows --------------------------------------------------------------

  function IdOf(b: Band, f: Figure): string { b.key + "." + f.name }

  predicate PassedOn(s: Status) { s in [NotRun, Unsupported, Guarded, NotComputable, Incomplete] }

  // The ids that have a value.
  function Values(byId: map<string, Entry>): set<string> {
    set id | id in byId && byId[id].status == HasValue
  }

  function DerivedStatus(m: Metric, byId: map<string, Entry>): (Status, Why)
    requires m.Derived?
  {
    match m.raises(Values(byId))
    case None => (HasValue, Other(""))
    case Some(k) =>
      if k !in byId then (Missing, Other(k))
      else if PassedOn(byId[k].status) then (byId[k].status, Other(k))
      else (Missing, Other(k))
  }

  // The gap of the first reference that has one.
  function FirstGap(refs: seq<string>, byId: map<string, Entry>): Option<Gap> {
    if refs == [] then None
    else if refs[0] in byId && byId[refs[0]].gap.Some? then byId[refs[0]].gap
    else FirstGap(refs[1..], byId)
  }

  predicate AnyGated(refs: seq<string>, byId: map<string, Entry>) {
    exists i :: 0 <= i < |refs| && refs[i] in byId && byId[refs[i]].gated
  }

  // One figure's entry; `measure` is what the other metrics report for it.
  function EntryOf(b: Band, f: Figure, cfg: Config, live: Live, byId: map<string, Entry>,
                   measure: string -> (Status, Why)): Entry {
    var id := IdOf(b, f);
    var why := if RowNotRun(b, cfg, live).Some? then RowNotRun(b, cfg, live) else FigureNotRun(f, live);
    if why.Some? then Entry(id, b.number, true, FigureUnrequested(b, f, cfg, live), NotRun, why.value)
    else if f.metric.Derived? then
      var (status, reason) := DerivedStatus(f.metric, byId);
      if status == NotRun && AnyGated(f.metric.refs, byId)
      then Entry(id, b.number, true, FirstGap(f.metric.refs, byId), status, reason)
      else Entry(id, b.number, false, None, status, reason)
    else Entry(id, b.number, false, None, measure(id).0, measure(id).1)
  }

  datatype Item = Item(band: Band, figure: Figure)

  function ItemsOf(b: Band, k: nat): (r: seq<Item>)
    requires k <= |b.figures|
    ensures |r| == k && forall i :: 0 <= i < k ==> r[i] == Item(b, b.figures[i])
  {
    seq(k, i requires 0 <= i < k => Item(b, b.figures[i]))
  }

  function Items(bands: seq<Band>): seq<Item> {
    if bands == [] then [] else
    var n := |bands| - 1;
    Items(bands[..n]) + ItemsOf(bands[n], |bands[n].figures|)
  }

  function RunItems(items: seq<Item>, cfg: Config, live: Live, measure: string -> (Status, Why))
    : (r: (seq<Entry>, map<string, Entry>))
    ensures |r.0| == |items|
  {
    if items == [] then ([], map[])
    else
      var n := |items| - 1;
      var (entries, byId) := RunItems(items[..n], cfg, live, measure);
      var e := EntryOf(items[n].band, items[n].figure, cfg, live, byId, measure);
      (entries + [e], byId[e.id := e])
  }

  method RunRows(bands: seq<Band>, cfg: Config, live: Live, measure: string -> (Status, Why))
    returns (figures: seq<Entry>)
    ensures figures == RunItems(Items(bands), cfg, live, measure).0
  {
    hide EntryOf, RunItems, Items;
    var byId: map<string, Entry> := map[];
    NoItems(cfg, live, measure);
    figures := [];
    for r := 0 to |bands|
      invariant (figures, byId) == RunItems(Items(bands[..r]), cfg, live, measure)
    {
      var b := bands[r];
      ghost var before := Items(bands[..r]);
      ItemsStep(bands[..r], b);
      assert bands[..r + 1] == bands[..r] + [b];
      assert before + ItemsOf(b, 0) == before;
      for k := 0 to |b.figures|
        invariant (figures, byId) == RunItems(before + ItemsOf(b, k), cfg, live, measure)
      {
        var entry := EntryOf(b, b.figures[k], cfg, live, byId, measure);
        RunStep(before + ItemsOf(b, k), Item(b, b.figures[k]), cfg, live, measure);
        assert before + ItemsOf(b, k + 1) == before + ItemsOf(b, k) + [Item(b, b.figures[k])];
        figures := figures + [entry];
        byId := byId[entry.id := entry];
      }
    }
    assert bands[..|bands|] == bands;
  }

  lemma NoItems(cfg: Config, live: Live, measure: string -> (Status, Why))
    ensures RunItems(Items([]), cfg, live, measure) == ([], map[])
  {
  }

  lemma ItemsStep(bands: seq<Band>, b: Band)
    ensures Items(bands + [b]) == Items(bands) + ItemsOf(b, |b.figures|)
  {
    assert (bands + [b])[..|bands|] == bands;
  }

  lemma RunStep(items: seq<Item>, item: Item, cfg: Config, live: Live, measure: string -> (Status, Why))
    ensures var (entries, byId) := RunItems(items, cfg, live, measure);
            var e := EntryOf(item.band, item.figure, cfg, live, byId, measure);
            RunItems(items + [item], cfg, live, measure) == (entries + [e], byId[e.id := e])
  {
    hide EntryOf;
    assert (items + [item])[..|items|] == items;
  }

  // A figure that lacks something of the run is not run, and carries a gap exactly when a
  // setting left it out. Any other measured figure has what was measured.
  lemma GatedExactly(b: Band, f: Figure, cfg: Config, live: Live, byId: map<string, Entry>,
                     measure: string -> (Status, Why))
    ensures var e := EntryOf(b, f, cfg, live, byId, measure);
            var runs := RowRuns(b, cfg, live) && FigureRuns(f, live);
            && (!runs ==> e.status == NotRun && e.gated && (e.gap.Some? <==> !AskedFor(b, f, cfg, live)))
            && (runs && f.metric.Measured? ==> e.status == measure(e.id).0 && e.why == measure(e.id).1 && !e.gated)
  {
    hide RowRuns, FigureRuns, AskedFor, RowNotRun, FigureNotRun, FigureUnrequested, IdOf;
    RowRunsIff(b, cfg, live);
    FigureRunsIff(f, live);
    AskedForIff(b, f, cfg, live);
  }

  // A derived figure that is not gated itself takes the status of the figure it lacks, if
  // that is one that is passed on; lacking a figure that did not run, it is gated when a
  // reference is, and left out when a reference was.
  lemma DerivedFollows(b: Band, f: Figure, cfg: Config, live: Live, byId: map<string, Entry>,
                       measure: string -> (Status, Why))
    requires RowRuns(b, cfg, live) && FigureRuns(f, live) && f.metric.Derived?
    ensures var e, refs, k := EntryOf(b, f, cfg, live, byId, measure), f.metric.refs, f.metric.raises(Values(byId));
            && (k.None? ==> e.status == HasValue)
            && (k.Some? && k.value !in byId ==> e.status == Missing)
            && (k.Some? && k.value in byId ==>
                  e.status == if byId[k.value].status in {NotRun, Unsupported, Guarded, NotComputable, Incomplete}
                              then byId[k.value].status else Missing)
            && (e.status == NotRun ==>
                  (e.gated <==> exists i :: 0 <= i < |refs| && refs[i] in byId && byId[refs[i]].gated))
            && (e.status == NotRun && e.gated ==>
                  (e.gap.Some? <==> exists i :: 0 <= i < |refs| && refs[i] in byId && byId[refs[i]].gap.Some?))
            && (e.status != NotRun ==> !e.gated && e.gap.None?)
  {
    hide RowRuns, FigureRuns, RowNotRun, FigureNotRun, FigureUnrequested, IdOf, Values;
    RowRunsIff(b, cfg, live);
    FigureRunsIff(f, live);
    FirstGapIff(f.metric.refs, byId);
  }

  lemma {:induction false} FirstGapIff(refs: seq<string>, byId: map<string, Entry>)
    ensures FirstGap(refs, byId).Some? <==> exists i :: 0 <= i < |refs| && refs[i] in byId && byId[refs[i]].gap.Some?
  {
    if refs != [] {
      FirstGapIff(refs[1..], byId);
      if i :| 0 <= i < |refs| && refs[i] in byId && byId[refs[i]].gap.Some? && i > 0 {
        assert refs[1..][i - 1] == refs[i];
      }
    }
  }

  // What every entry satisfies: only a gated, not-run figure carries a gap.
  ghost predicate Consistent(e: Entry) { e.gap.Some? ==> e.gated && e.status == NotRun }

  lemma {:induction false} EntriesConsistent(items: seq<Item>, cfg: Config, live: Live,
                                             measure: string -> (Status, Why))
    ensures forall i :: 0 <= i < |items| ==> Consistent(RunItems(items, cfg, live, measure).0[i])
  {
    if items != [] { EntriesConsistent(items[..|items| - 1], cfg, live, measure); }
  }

  // Entry i is item i's: its id, and its gap when its row was never asked for.
  ghost predicate Accounts(e: Entry, item: Item, cfg: Config, live: Live) {
    && e.id == IdOf(item.band, item.figure)
    && (RowUnrequested(item.band, cfg, live).Some? ==> e.status == NotRun && e.gap.Some?)
  }

  lemma {:induction false} EntriesAccount(items: seq<Item>, cfg: Config, live: Live, measure: string -> (Status, Why))
    ensures forall i :: 0 <= i < |items| ==> Accounts(RunItems(items, cfg, live, measure).0[i], items[i], cfg, live)
  {
    hide RowNotRun, RowUnrequested, FigureUnrequested;
    if items != [] {
      var n := |items| - 1;
      EntriesAccount(items[..n], cfg, live, measure);
      if RowUnrequested(items[n].band, cfg, live).Some? {
        UnrequestedRow(items[n].band, items[n].figure, cfg, live);
      }
    }
  }

  // --- not_requested ---------------------------------------------------------

  datatype Listing =
    | WholeRow(row: int, key: string, gap: Gap)
    | Named(row: int, key: string, gap: Gap, names: seq<string>)

  // The position of the first dot, or the length.
  function DotAt(id: string): (k: nat)
    ensures k <= |id| && '.' !in id[..k] && (k < |id| ==> id[k] == '.')
  {
    if id == "" || id[0] == '.' then 0
    else
      var k := 1 + DotAt(id[1..]);
      assert id[..k] == [id[0]] + id[1..][..k - 1];
      k
  }

  function Prefix(id: string): string { id[..DotAt(id)] }

  function Suffix(id: string): string { if DotAt(id) < |id| then id[DotAt(id) + 1..] else "" }

  function UnrequestedRows(bands: seq<Band>, cfg: Config, live: Live): seq<Listing> {
    if bands == [] then []
    else
      var n := |bands| - 1;
      var gap := RowUnrequested(bands[n], cfg, live);
      UnrequestedRows(bands[..n], cfg, live)
      + if gap.Some? then [WholeRow(bands[n].number, bands[n].key, gap.value)] else []
  }

  function RowKeys(out: seq<Listing>): set<string> {
    set x | x in out && x.WholeRow? :: x.key
  }

  function NamedIds(out: seq<Listing>): set<string> {
    set x, i | x in out && x.Named? && 0 <= i < |x.names| :: x.key + "." + x.names[i]
  }

  // Files a name under its row, key and gap; a new group goes last.
  function AddName(groups: seq<Listing>, row: int, key: string, gap: Gap, name: string): seq<Listing> {
    if groups == [] then [Named(row, key, gap, [name])]
    else if groups[0].Named? && (groups[0].row, groups[0].key, groups[0].gap) == (row, key, gap) then
      [groups[0].(names := groups[0].names + [name])] + groups[1..]
    else [groups[0]] + AddName(groups[1..], row, key, gap, name)
  }

  // A figure listed by its own name: never asked for, and not covered by its row.
  predicate ByName(e: Entry, listed: set<string>) {
    e.gated && e.gap.Some? && Prefix(e.id) !in listed
  }

  function Groups(entries: seq<Entry>, listed: set<string>): seq<Listing> {
    if entries == [] then []
    else
      var n := |entries| - 1;
      var e := entries[n];
      var before := Groups(entries[..n], listed);
      if ByName(e, listed) then AddName(before, e.row, Prefix(e.id), e.gap.value, Suffix(e.id)) else before
  }

  predicate ByRow(x: Listing, y: Listing) { x.row <= y.row }

  function NotRequested(bands: seq<Band>, cfg: Config, live: Live, entries: seq<Entry>): seq<Listing> {
    var rows := UnrequestedRows(bands, cfg, live);
    Sort(rows + Groups(entries, RowKeys(rows)), ByRow)
  }

  // The listing is in row order.
  lemma ListingOrdered(bands: seq<Band>, cfg: Config, live: Live, entries: seq<Entry>, i: nat, j: nat)
    requires i < j < |NotRequested(bands, cfg, live, entries)|
    ensures NotRequested(bands, cfg, live, entries)[i].row <= NotRequested(bands, cfg, live, entries)[j].row
  {
    hide UnrequestedRows, Groups, RowKeys, Sort;
    var rows := UnrequestedRows(bands, cfg, live);
    SortSorted(rows + Groups(entries, RowKeys(rows)), ByRow);
  }

  method ListNotRequested(bands: seq<Band>, cfg: Config, live: Live, entries: seq<Entry>) returns (out: seq<Listing>)
    ensures out == NotRequested(bands, cfg, live, entries)
  {
    hide RowUnrequested, AddName, Prefix, Suffix, RowKeys, Sort;
    out := [];
    for r := 0 to |bands|
      invariant out == UnrequestedRows(bands[..r], cfg, live)
    {
      assert bands[..r + 1][..r] == bands[..r];
      var why := RowUnrequested(bands[r], cfg, live);
      if why.Some? {
        out := out + [WholeRow(bands[r].number, bands[r].key, why.value)];
      }
    }
    assert bands[..|bands|] == bands;
    var listed := RowKeys(out);
    var groups: seq<Listing> := [];
    for i := 0 to |entries|
      invariant groups == Groups(entries[..i], listed)
    {
      assert entries[..i + 1][..i] == entries[..i];
      var e := entries[i];
      if e.gated && e.gap.Some? && Prefix(e.id) !in listed {
        groups := AddName(groups, e.row, Prefix(e.id), e.gap.value, Suffix(e.id));
      }
    }
    assert entries[..|entries|] == entries;
    out := Sort(out + groups, ByRow);
  }

  lemma {:induction false} AddNameIds(groups: seq<Listing>, row: int, key: string, gap: Gap, name: string)
    requires forall i :: 0 <= i < |groups| ==> groups[i].Named?
    ensures NamedIds(AddName(groups, row, key, gap, name)) == NamedIds(groups) + {key + "." + name}
    ensures forall i :: 0 <= i < |AddName(groups, row, key, gap, name)| ==>
                          AddName(groups, row, key, gap, name)[i].Named?
  {
    hide NamedIds;
    var all := AddName(groups, row, key, gap, name);
    if groups == [] {
      NoNames();
      NamedOne(all[0]);
      assert all == [all[0]];
    } else {
      var g := groups[0];
      NamedCons(g, groups[1..]);
      assert groups == [g] + groups[1..];
      if (g.row, g.key, g.gap) == (row, key, gap) {
        var g' := g.(names := g.names + [name]);
        NamedCons(g', groups[1..]);
        NamedMore(g, name);
      } else {
        AddNameIds(groups[1..], row, key, gap, name);
        NamedCons(g, AddName(groups[1..], row, key, gap, name));
      }
    }
  }

  lemma NamedOne(g: Listing)
    requires g.Named? && |g.names| == 1
    ensures NamedIds([g]) == {g.key + "." + g.names[0]}
  {
    assert g in [g];
    var id := g.key + "." + g.names[0];
    assert id in NamedIds([g]);
  }

  lemma NamedCons(g: Listing, groups: seq<Listing>)
    ensures NamedIds([g] + groups) == NamedIds([g]) + NamedIds(groups)
  {
    assert forall x :: x in [g] + groups <==> x in [g] || x in groups;
  }

  lemma NamedMore(g: Listing, name: string)
    requires g.Named?
    ensures NamedIds([g.(names := g.names + [name])]) == NamedIds([g]) + {g.key + "." + name}
  {
    var g' := g.(names := g.names + [name]);
    assert g in [g] && g' in [g'];
    forall id | id in NamedIds([g]) ensures id in NamedIds([g']) {
      var i :| 0 <= i < |g.names| && id == g.key + "." + g.names[i];
      assert g'.names[i] == g.names[i];
    }
    assert g'.names[|g.names|] == name;
    forall id | id in NamedIds([g']) ensures id in NamedIds([g]) + {g.key + "." + name} {
      var i :| 0 <= i < |g'.names| && id == g.key + "." + g'.names[i];
      if i < |g.names| { assert g'.names[i] == g.names[i]; }
    }
  }

  // --- incomplete_reasons ----------------------------------------------------

  datatype Verdict = Same(s: Status) | Pass | Miss | Reported

  // A figure without a value is judged by its status.
  function VerdictOf(e: Entry, judge: string -> Verdict): Verdict {
    if e.status != HasValue then Same(e.status) else judge(e.id)
  }

  function Name(s: Status): string {
    match s
    case NotRun => "not-run"
    case HasValue => "value"
    case Missing => "missing"
    case NotMeasured => "not-measured"
    case NotComputable => "not-computable"
    case Incomplete => "incomplete"
    case Unsupported => "unsupported-on-this-build"
    case Guarded => "refused-by-guard"
    case Refused => "refused"
    case Duplicate => "duplicate"
  }

  // What an incomplete line says of a figure after its id, if it gets a line.
  function Remark(e: Entry, judge: string -> Verdict, text: Why -> string): Option<string> {
    var v := VerdictOf(e, judge);
    if e.status == NotRun && e.gap.None? then Some("not run: " + text(e.why))
    else if e.status == NotMeasured then Some("not measured: " + text(e.why))
    else if v.Same? && v.s in [NotComputable, Incomplete] then Some(Name(v.s) + ": " + text(e.why))
    else if e.row == 18 && v.Same? && v.s in [Unsupported, Guarded, Refused, Missing]
    then Some(Name(v.s) + ": " + text(e.why))
    else None
  }

  // Without a settled result: not run though asked for, not measured, without a result of
  // its own or judged against something without one, or a cell of row 18 without a value.
  predicate Unsettled(e: Entry, judge: string -> Verdict) {
    var v := if e.status == HasValue then judge(e.id) else Same(e.status);
    || (e.status == NotRun && e.gap.None?) || e.status == NotMeasured
    || v == Same(NotComputable) || v == Same(Incomplete)
    || (e.row == 18 && v in {Same(Unsupported), Same(Guarded), Same(Refused), Same(Missing)})
  }

  lemma RemarkIff(e: Entry, judge: string -> Verdict, text: Why -> string)
    ensures Remark(e, judge, text).Some? <==> Unsettled(e, judge)
  {
  }

  function FigureLines(entries: seq<Entry>, judge: string -> Verdict, text: Why -> string): seq<string> {
    if entries == [] then []
    else
      var n := |entries| - 1;
      var remark := Remark(entries[n], judge, text);
      FigureLines(entries[..n], judge, text)
      + if remark.Some? then ["figure " + entries[n].id + " " + remark.value] else []
  }

  // The lines on states and calls, on figures, and on needles.
  function IncompleteReasons(before: seq<string>, entries: seq<Entry>, judge: string -> Verdict, text: Why -> string,
                             after: seq<string>): seq<string> {
    before + FigureLines(entries, judge, text) + after
  }

  method ListIncomplete(before: seq<string>, entries: seq<Entry>, judge: string -> Verdict, text: Why -> string,
                        after: seq<string>) returns (out: seq<string>)
    ensures out == IncompleteReasons(before, entries, judge, text, after)
  {
    out := before;
    for i := 0 to |entries|
      invariant out == before + FigureLines(entries[..i], judge, text)
    {
      assert entries[..i + 1][..i] == entries[..i];
      var remark := Remark(entries[i], judge, text);
      if remark.Some? {
        out := out + ["figure " + entries[i].id + " " + remark.value];
      }
    }
    assert entries[..|entries|] == entries;
    out := out + after;
  }

  // --- placement -------------------------------------------------------------

  function Starting(lines: seq<string>, p: string): nat {
    if lines == [] then 0
    else Starting(lines[..|lines| - 1], p) + if p <= lines[|lines| - 1] then 1 else 0
  }

  function NotRunStart(id: string): string { "figure " + id + " " + "not run: " }

  // How often a figure is placed: by its row, by its name, as a not-run line.
  function Places(id: string, out: seq<Listing>, lines: seq<string>): nat {
    (if Prefix(id) in RowKeys(out) then 1 else 0) + (if id in NamedIds(out) then 1 else 0)
    + Starting(lines, NotRunStart(id))
  }

  // What the bands file is: distinct keys without dots, distinct names in a row, and no
  // spaces in either.
  ghost predicate WellFormed(bands: seq<Band>) {
    && (forall i :: 0 <= i < |bands| ==> WellFormedBand(bands[i]))
    && forall i, j :: 0 <= i < j < |bands| ==> bands[i].key != bands[j].key
  }

  ghost predicate WellFormedBand(b: Band) {
    && '.' !in b.key && ' ' !in b.key
    && (forall k :: 0 <= k < |b.figures| ==> ' ' !in b.figures[k].name)
    && forall j, k :: 0 <= j < k < |b.figures| ==> b.figures[j].name != b.figures[k].name
  }

  lemma {:induction false} DotAtExact(key: string, rest: string)
    requires '.' !in key
    ensures DotAt(key + "." + rest) == |key|
  {
    var id := key + "." + rest;
    if key != "" {
      DotAtExact(key[1..], rest);
      assert id[1..] == key[1..] + "." + rest && id[0] == key[0];
    } else {
      assert id == "." + rest;
    }
  }

  lemma IdParts(b: Band, f: Figure)
    requires '.' !in b.key
    ensures Prefix(IdOf(b, f)) == b.key && Suffix(IdOf(b, f)) == f.name
  {
    DotAtExact(b.key, f.name);
  }

  lemma IdsDiffer(b: Band, f: Figure, c: Band, g: Figure)
    requires '.' !in b.key && '.' !in c.key && IdOf(b, f) == IdOf(c, g)
    ensures b.key == c.key && f.name == g.name
  {
    IdParts(b, f);
    IdParts(c, g);
  }

  // Every item is a figure of one of the bands, and no two have the same id.
  lemma {:induction false} ItemIds(bands: seq<Band>)
    requires WellFormed(bands)
    ensures forall i :: 0 <= i < |Items(bands)| ==>
                          Items(bands)[i].band in bands && Items(bands)[i].figure in Items(bands)[i].band.figures
    ensures forall i, j :: 0 <= i < j < |Items(bands)| ==>
              IdOf(Items(bands)[i].band, Items(bands)[i].figure) != IdOf(Items(bands)[j].band, Items(bands)[j].figure)
  {
    hide IdOf;
    if bands != [] {
      var n := |bands| - 1;
      ItemIds(bands[..n]);
      var a, b := Items(bands[..n]), ItemsOf(bands[n], |bands[n].figures|);
      assert Items(bands) == a + b;
      assert WellFormedBand(bands[n]);
      forall i, j | 0 <= i < |a| && 0 <= j < |b| ensures IdOf(a[i].band, a[i].figure) != IdOf(b[j].band, b[j].figure) {
        assert a[i].band in bands[..n];
        var k :| 0 <= k < n && bands[k] == a[i].band;
        assert WellFormedBand(bands[k]);
        if IdOf(a[i].band, a[i].figure) == IdOf(b[j].band, b[j].figure) {
          IdsDiffer(a[i].band, a[i].figure, b[j].band, b[j].figure);
        }
      }
      forall i, j | 0 <= i < j < |b| ensures IdOf(b[i].band, b[i].figure) != IdOf(b[j].band, b[j].figure) {
        if IdOf(b[i].band, b[i].figure) == IdOf(b[j].band, b[j].figure) {
          IdsDiffer(b[i].band, b[i].figure, b[j].band, b[j].figure);
        }
      }
    }
  }

  // --- by its row ------------------------------------------------------------

  lemma {:induction false} RowKeysOf(bands: seq<Band>, cfg: Config, live: Live, key: string)
    ensures key in RowKeys(UnrequestedRows(bands, cfg, live))
            <==> exists r :: 0 <= r < |bands| && bands[r].key == key && RowUnrequested(bands[r], cfg, live).Some?
    ensures forall x :: x in UnrequestedRows(bands, cfg, live) ==> x.WholeRow?
  {
    hide RowUnrequested;
    if bands != [] {
      var n := |bands| - 1;
      RowKeysOf(bands[..n], cfg, live, key);
      var before := UnrequestedRows(bands[..n], cfg, live);
      var gap := RowUnrequested(bands[n], cfg, live);
      if gap.Some? {
        var x := WholeRow(bands[n].number, bands[n].key, gap.value);
        assert UnrequestedRows(bands, cfg, live) == before + [x];
        assert forall y :: y in before + [x] <==> y in before || y == x;
      }
      if r :| 0 <= r < |bands| && bands[r].key == key && RowUnrequested(bands[r], cfg, live).Some? && r < n {
        assert bands[..n][r] == bands[r];
      }
    }
  }

  lemma RowListed(bands: seq<Band>, cfg: Config, live: Live, b: Band)
    requires WellFormed(bands) && b in bands
    ensures b.key in RowKeys(UnrequestedRows(bands, cfg, live)) <==> RowUnrequested(b, cfg, live).Some?
  {
    hide RowUnrequested, RowKeys;
    RowKeysOf(bands, cfg, live, b.key);
    var k :| 0 <= k < |bands| && bands[k] == b;
  }

  // --- by its name -----------------------------------------------------------

  lemma {:induction false} GroupsIds(entries: seq<Entry>, listed: set<string>)
    requires forall i :: 0 <= i < |entries| ==> '.' in entries[i].id
    ensures forall i :: 0 <= i < |Groups(entries, listed)| ==> Groups(entries, listed)[i].Named?
    ensures NamedIds(Groups(entries, listed)) ==
            set i | 0 <= i < |entries| && ByName(entries[i], listed) :: entries[i].id
  {
    hide NamedIds, AddName, ByName;
    if entries == [] {
      NoNames();
    } else {
      var n := |entries| - 1;
      GroupsIds(entries[..n], listed);
      var e := entries[n];
      var mine := set i | 0 <= i < |entries| && ByName(entries[i], listed) :: entries[i].id;
      var before := set i | 0 <= i < n && ByName(entries[i], listed) :: entries[i].id;
      assert before == set i | 0 <= i < n && ByName(entries[..n][i], listed) :: entries[..n][i].id;
      assert mine == before + if ByName(e, listed) then {e.id} else {};
      if ByName(e, listed) {
        GroupAdd(Groups(entries[..n], listed), e, listed);
      }
    }
  }

  lemma NoNames()
    ensures NamedIds([]) == {}
  {
  }

  lemma GroupAdd(groups: seq<Listing>, e: Entry, listed: set<string>)
    requires (forall i :: 0 <= i < |groups| ==> groups[i].Named?) && ByName(e, listed) && '.' in e.id
    ensures var all := AddName(groups, e.row, Prefix(e.id), e.gap.value, Suffix(e.id));
            NamedIds(all) == NamedIds(groups) + {e.id} && forall i :: 0 <= i < |all| ==> all[i].Named?
  {
    AddNameIds(groups, e.row, Prefix(e.id), e.gap.value, Suffix(e.id));
    assert DotAt(e.id) < |e.id|;
    assert e.id == Prefix(e.id) + "." + Suffix(e.id);
  }

  // Sorting the listing moves nothing between the two kinds.
  lemma ListingKinds(rows: seq<Listing>, groups: seq<Listing>)
    requires (forall x :: x in rows ==> x.WholeRow?) && (forall i :: 0 <= i < |groups| ==> groups[i].Named?)
    ensures RowKeys(Sort(rows + groups, ByRow)) == RowKeys(rows)
    ensures NamedIds(Sort(rows + groups, ByRow)) == NamedIds(groups)
  {
    var out := Sort(rows + groups, ByRow);
    forall x ensures x in out <==> x in rows || x in groups {
      assert x in multiset(out) <==> x in multiset(rows + groups);
      assert x in rows + groups <==> x in rows || x in groups;
    }
    assert forall x :: x in groups ==> x.Named?;
    forall id ensures id in NamedIds(out) <==> id in NamedIds(groups) {
      if id in NamedIds(out) {
        var x, i :| x in out && x.Named? && 0 <= i < |x.names| && id == x.key + "." + x.names[i];
        assert x in groups;
      }
      if id in NamedIds(groups) {
        var x, i :| x in groups && x.Named? && 0 <= i < |x.names| && id == x.key + "." + x.names[i];
        assert x in out;
      }
    }
  }

  // --- as a line -------------------------------------------------------------

  lemma {:induction false} SpaceSplits(a: string, x: string, b: string, y: string)
    requires ' ' !in a && ' ' !in b
    ensures a + " " + x <= b + " " + y <==> a == b && x <= y
  {
    var l, r := a + " " + x, b + " " + y;
    if a == "" && b == "" {
      assert l == [' '] + x && r == [' '] + y;
      HeadPrefix(' ', x, ' ', y);
    } else if a == "" {
      assert l == [' '] + x && r == [b[0]] + (b[1..] + " " + y);
      HeadPrefix(' ', x, b[0], b[1..] + " " + y);
    } else if b == "" {
      assert l == [a[0]] + (a[1..] + " " + x) && r == [' '] + y;
      HeadPrefix(a[0], a[1..] + " " + x, ' ', y);
    } else {
      SpaceSplits(a[1..], x, b[1..], y);
      assert l == [a[0]] + (a[1..] + " " + x) && r == [b[0]] + (b[1..] + " " + y);
      HeadPrefix(a[0], a[1..] + " " + x, b[0], b[1..] + " " + y);
      assert a == [a[0]] + a[1..] && b == [b[0]] + b[1..];
    }
  }

  lemma HeadPrefix(c: char, x: string, d: char, y: string)
    ensures [c] + x <= [d] + y <==> c == d && x <= y
  {
    var l, r := [c] + x, [d] + y;
    if l <= r { assert l[1..] == x && r[1..] == y && l[0] == r[0]; }
    if c == d && x <= y { assert r == [c] + x + y[|x|..]; }
  }

  // A figure's line starts as a not-run line of an id exactly when it is that figure's
  // not-run line.
  lemma LineMatches(id: string, e: Entry, judge: string -> Verdict, text: Why -> string)
    requires ' ' !in id && ' ' !in e.id && Remark(e, judge, text).Some?
    ensures NotRunStart(id) <= "figure " + e.id + " " + Remark(e, judge, text).value
            <==> id == e.id && e.status == NotRun && e.gap.None?
  {
    hide Remark;
    var remark := Remark(e, judge, text).value;
    assert "figure " == "figure" + " ";
    SpaceSplits("figure", id + " " + "not run: ", "figure", e.id + " " + remark);
    assert NotRunStart(id) == "figure" + " " + (id + " " + "not run: ");
    assert "figure " + e.id + " " + remark == "figure" + " " + (e.id + " " + remark);
    SpaceSplits(id, "not run: ", e.id, remark);
    RemarkKinds(e, judge, text);
  }

  lemma RemarkKinds(e: Entry, judge: string -> Verdict, text: Why -> string)
    requires Remark(e, judge, text).Some?
    ensures "not run: " <= Remark(e, judge, text).value <==> e.status == NotRun && e.gap.None?
  {
    var r := Remark(e, judge, text).value;
    var p := "not run: ";
    if !(e.status == NotRun && e.gap.None?) && |r| >= 9 {
      assert r[..9][4] != p[4] || r[..9][3] != p[3] || r[..9][0] != p[0];
    }
  }

  lemma {:induction false} StartingConcat(a: seq<string>, b: seq<string>, p: string)
    ensures Starting(a + b, p) == Starting(a, p) + Starting(b, p)
  {
    if b == [] {
      assert a + b == a;
    } else {
      var n := |b| - 1;
      StartingConcat(a, b[..n], p);
      assert (a + b)[..|a| + n] == a + b[..n];
    }
  }

  lemma PrefixOfPrefix(a: string, b: string, c: string)
    requires a <= b
    ensures b <= c ==> a <= c
  {
  }

  lemma {:induction false} StartingNone(lines: seq<string>, id: string)
    requires forall i :: 0 <= i < |lines| ==> !("figure " <= lines[i])
    ensures Starting(lines, NotRunStart(id)) == 0
  {
    if lines != [] {
      var n := |lines| - 1;
      StartingNone(lines[..n], id);
      PrefixOfPrefix("figure ", NotRunStart(id), lines[n]);
    }
  }

  // The entry of an id that did not run though asked for.
  predicate AskedNotRun(e: Entry, id: string) { e.id == id && e.status == NotRun && e.gap.None? }

  // Figure i of distinct ids has one not-run line if it did not run and was asked for.
  lemma {:induction false} StartingFigures(entries: seq<Entry>, id: string, judge: string -> Verdict,
                                           text: Why -> string)
    requires ' ' !in id && forall i :: 0 <= i < |entries| ==> ' ' !in entries[i].id
    requires forall i, j :: 0 <= i < j < |entries| ==> entries[i].id != entries[j].id
    ensures Starting(FigureLines(entries, judge, text), NotRunStart(id)) ==
            if exists i :: 0 <= i < |entries| && AskedNotRun(entries[i], id) then 1 else 0
  {
    hide Remark, NotRunStart;
    if entries != [] {
      var n := |entries| - 1;
      StartingFigures(entries[..n], id, judge, text);
      var e := entries[n];
      var before := FigureLines(entries[..n], judge, text);
      if Remark(e, judge, text).Some? {
        LineMatches(id, e, judge, text);
        var line := "figure " + e.id + " " + Remark(e, judge, text).value;
        assert (before + [line])[..|before|] == before;
      } else {
        NoRemark(e, judge, text);
        assert before + [] == before;
      }
      assert forall i :: 0 <= i < n ==> entries[..n][i] == entries[i];
    }
  }

  lemma NoRemark(e: Entry, judge: string -> Verdict, text: Why -> string)
    requires Remark(e, judge, text).None?
    ensures !(e.status == NotRun && e.gap.None?)
  {
  }

  // --- the theorem -----------------------------------------------------------

  // Lines about states, calls and needles never start like a figure's.
  ghost predicate NoFigureLines(lines: seq<string>) {
    forall i :: 0 <= i < |lines| ==> !("figure " <= lines[i])
  }

  // Distinct ids, each with a dot and no space.
  ghost predicate Identified(es: seq<Entry>) {
    && (forall i :: 0 <= i < |es| ==> '.' in es[i].id)
    && (forall i :: 0 <= i < |es| ==> ' ' !in es[i].id)
    && forall i, j :: 0 <= i < j < |es| ==> es[i].id != es[j].id
  }

  // No two figures of the bands share an id, and no id has a space. An id has a dot anyway.
  ghost predicate Apart(bands: seq<Band>) {
    && (forall i :: 0 <= i < |Items(bands)| ==> ' ' !in ItemId(Items(bands)[i]))
    && forall i, j :: 0 <= i < j < |Items(bands)| ==> ItemId(Items(bands)[i]) != ItemId(Items(bands)[j])
  }

  function ItemId(item: Item): string { IdOf(item.band, item.figure) }

  lemma WellFormedApart(bands: seq<Band>)
    requires WellFormed(bands)
    ensures Apart(bands)
  {
    hide IdOf, Items;
    ItemIds(bands);
    var items := Items(bands);
    forall i | 0 <= i < |items| ensures ' ' !in ItemId(items[i]) {
      var k :| 0 <= k < |bands| && bands[k] == items[i].band;
      assert WellFormedBand(bands[k]);
      IdCharacters(items[i].band, items[i].figure);
    }
  }

  // The entries of such bands are identified.
  lemma EntryIds(bands: seq<Band>, cfg: Config, live: Live, measure: string -> (Status, Why))
    requires Apart(bands)
    ensures Identified(RunItems(Items(bands), cfg, live, measure).0)
  {
    hide EntryOf, Items, RunItems, RowUnrequested, IdOf;
    var items := Items(bands);
    var es := RunItems(items, cfg, live, measure).0;
    EntriesAccount(items, cfg, live, measure);
    forall i | 0 <= i < |es| ensures es[i].id == ItemId(items[i]) && '.' in es[i].id {
      assert Accounts(es[i], items[i], cfg, live);
      IdHasDot(items[i].band, items[i].figure);
    }
  }

  lemma IdHasDot(b: Band, f: Figure)
    ensures '.' in IdOf(b, f)
  {
    assert IdOf(b, f)[|b.key|] == '.';
  }

  lemma IdCharacters(b: Band, f: Figure)
    requires WellFormedBand(b) && f in b.figures
    ensures ' ' !in IdOf(b, f)
  {
    var k :| 0 <= k < |b.figures| && b.figures[k] == f;
  }

  // A not-run figure is placed exactly once and any other figure nowhere.
  ghost predicate PlacedRight(bands: seq<Band>, cfg: Config, live: Live, measure: string -> (Status, Why),
                              judge: string -> Verdict, text: Why -> string, before: seq<string>, after: seq<string>,
                              i: nat)
    requires i < |Items(bands)|
  {
    var es := RunItems(Items(bands), cfg, live, measure).0;
    Places(es[i].id, NotRequested(bands, cfg, live, es), IncompleteReasons(before, es, judge, text, after))
    == if es[i].status == NotRun then 1 else 0
  }

  // In every run a figure is placed right if and only if it was left out itself whenever
  // a row under the first part of its id was.
  lemma PlacedIff(bands: seq<Band>, cfg: Config, live: Live, measure: string -> (Status, Why), judge: string -> Verdict,
                  text: Why -> string, before: seq<string>, after: seq<string>, i: nat)
    requires Apart(bands) && NoFigureLines(before) && NoFigureLines(after) && i < |Items(bands)|
    ensures var e := RunItems(Items(bands), cfg, live, measure).0[i];
            PlacedRight(bands, cfg, live, measure, judge, text, before, after, i)
            <==> (Prefix(e.id) in RowKeys(UnrequestedRows(bands, cfg, live)) ==> e.status == NotRun && e.gap.Some?)
  {
    hide EntryOf, Items, RunItems, RowUnrequested, UnrequestedRows, Groups, RowKeys, NamedIds, FigureLines, Sort,
         Starting, Prefix, NotRunStart, Apart;
    var items := Items(bands);
    var es := RunItems(items, cfg, live, measure).0;
    var e := es[i];
    EntryIds(bands, cfg, live, measure);
    EntriesConsistent(items, cfg, live, measure);
    var rows := UnrequestedRows(bands, cfg, live);
    var listed := RowKeys(rows);
    RowKeysOf(bands, cfg, live, "");
    GroupsIds(es, listed);
    ListingKinds(rows, Groups(es, listed));
    StartingConcat(before + FigureLines(es, judge, text), after, NotRunStart(e.id));
    StartingConcat(before, FigureLines(es, judge, text), NotRunStart(e.id));
    StartingNone(before, e.id);
    StartingNone(after, e.id);
    StartingFigures(es, e.id, judge, text);
    assert Consistent(e);
    assert e.id in NamedIds(Groups(es, listed)) <==> ByName(e, listed);
  }

  // With distinct keys every not-run figure is placed exactly once and every other figure
  // nowhere, whatever the settings, the live states and the measurements.
  lemma PlacedOnce(bands: seq<Band>, cfg: Config, live: Live, measure: string -> (Status, Why),
                   judge: string -> Verdict, text: Why -> string, before: seq<string>, after: seq<string>, i: nat)
    requires WellFormed(bands) && NoFigureLines(before) && NoFigureLines(after) && i < |Items(bands)|
    ensures var es := RunItems(Items(bands), cfg, live, measure).0;
            Places(es[i].id, NotRequested(bands, cfg, live, es), IncompleteReasons(before, es, judge, text, after))
            == if es[i].status == NotRun then 1 else 0
  {
    hide EntryOf, Items, RunItems, UnrequestedRows, RowKeys, Prefix, WellFormed, Apart, Places, NotRequested,
         IncompleteReasons;
    WellFormedApart(bands);
    PlacedIff(bands, cfg, live, measure, judge, text, before, after, i);
    RowOfEntry(bands, cfg, live, measure, i);
  }

  function LineStart(id: string): string { "figure " + id + " " }

  lemma LineStarts(id: string, e: Entry, remark: string)
    requires ' ' !in id && ' ' !in e.id
    ensures LineStart(id) <= "figure " + e.id + " " + remark <==> id == e.id
  {
    assert "figure " == "figure" + " ";
    SpaceSplits("figure", id + " ", "figure", e.id + " " + remark);
    assert LineStart(id) == "figure" + " " + (id + " ");
    assert "figure " + e.id + " " + remark == "figure" + " " + (e.id + " " + remark);
    SpaceSplits(id, "", e.id, remark);
    assert id + " " + "" == id + " ";
  }

  lemma {:induction false} LinesOfFigures(entries: seq<Entry>, id: string, judge: string -> Verdict,
                                          text: Why -> string)
    requires ' ' !in id && forall i :: 0 <= i < |entries| ==> ' ' !in entries[i].id
    requires forall i, j :: 0 <= i < j < |entries| ==> entries[i].id != entries[j].id
    ensures Starting(FigureLines(entries, judge, text), LineStart(id)) ==
            if exists i :: 0 <= i < |entries| && entries[i].id == id && Unsettled(entries[i], judge) then 1 else 0
  {
    hide Remark, LineStart, Unsettled;
    if entries != [] {
      var n := |entries| - 1;
      LinesOfFigures(entries[..n], id, judge, text);
      var e := entries[n];
      RemarkIff(e, judge, text);
      var before := FigureLines(entries[..n], judge, text);
      if Remark(e, judge, text).Some? {
        LineStarts(id, e, Remark(e, judge, text).value);
        var line := "figure " + e.id + " " + Remark(e, judge, text).value;
        assert (before + [line])[..|before|] == before;
      } else {
        assert before + [] == before;
      }
      assert forall i :: 0 <= i < n ==> entries[..n][i] == entries[i];
    }
  }

  lemma {:induction false} NoLineStarts(lines: seq<string>, id: string)
    requires NoFigureLines(lines)
    ensures Starting(lines, LineStart(id)) == 0
  {
    if lines != [] {
      var n := |lines| - 1;
      NoLineStarts(lines[..n], id);
      PrefixOfPrefix("figure ", LineStart(id), lines[n]);
    }
  }

  // A figure has exactly one incomplete line if it is unsettled, and none otherwise.
  lemma LinesExact(bands: seq<Band>, cfg: Config, live: Live, measure: string -> (Status, Why),
                   judge: string -> Verdict, text: Why -> string, before: seq<string>, after: seq<string>, i: nat)
    requires Apart(bands) && NoFigureLines(before) && NoFigureLines(after) && i < |Items(bands)|
    ensures var es := RunItems(Items(bands), cfg, live, measure).0;
            Starting(IncompleteReasons(before, es, judge, text, after), LineStart(es[i].id))
            == if Unsettled(es[i], judge) then 1 else 0
  {
    hide EntryOf, Items, RunItems, FigureLines, Starting, LineStart, Apart, Unsettled;
    var es := RunItems(Items(bands), cfg, live, measure).0;
    EntryIds(bands, cfg, live, measure);
    StartingConcat(before + FigureLines(es, judge, text), after, LineStart(es[i].id));
    StartingConcat(before, FigureLines(es, judge, text), LineStart(es[i].id));
    NoLineStarts(before, es[i].id);
    NoLineStarts(after, es[i].id);
    LinesOfFigures(es, es[i].id, judge, text);
  }

  lemma RowOfEntry(bands: seq<Band>, cfg: Config, live: Live, measure: string -> (Status, Why), i: nat)
    requires WellFormed(bands) && i < |Items(bands)|
    ensures var e := RunItems(Items(bands), cfg, live, measure).0[i];
            Prefix(e.id) in RowKeys(UnrequestedRows(bands, cfg, live)) ==> e.status == NotRun && e.gap.Some?
  {
    hide EntryOf, Items, RunItems, RowUnrequested, UnrequestedRows, RowKeys, Prefix;
    var items := Items(bands);
    ItemIds(bands);
    EntriesAccount(items, cfg, live, measure);
    var e, item := RunItems(items, cfg, live, measure).0[i], items[i];
    assert Accounts(e, item, cfg, live);
    var k :| 0 <= k < |bands| && bands[k] == item.band;
    assert WellFormedBand(bands[k]);
    IdParts(item.band, item.figure);
    RowListed(bands, cfg, live, item.band);
  }

  // Two rows under one key break it: the figure of the row that ran is taken for one of
  // the row never asked for.
  lemma SharedKeyMisplaces(measure: string -> (Status, Why))
    requires measure("r.f").0 == HasValue
    ensures var run := Band("r", 1, false, [], [], false, [Figure("f", [], "all", Measured)]);
            var off := Band("r", 2, true, [], [], false, []);
            var cfg := Config(false, [], false);
            var es := RunItems(Items([run, off]), cfg, map[], measure).0;
            && |es| == 1 && es[0].status == HasValue
            && Places(es[0].id, NotRequested([run, off], cfg, map[], es), []) == 1
  {
    var figure := Figure("f", [], "all", Measured);
    var run, off := Band("r", 1, false, [], [], false, [figure]), Band("r", 2, true, [], [], false, []);
    var cfg := Config(false, [], false);
    var live: Live := map[];
    var item := Item(run, figure);
    ItemsStep([], run);
    ItemsStep([run], off);
    assert Items([run, off]) == [item] by {
      assert [] + [run] == [run] && [run] + [off] == [run, off];
      assert ItemsOf(off, 0) == [] && ItemsOf(run, 1) == [item];
    }
    var e := EntryOf(run, figure, cfg, live, map[], measure);
    assert RunItems([item], cfg, live, measure).0 == [e] by {
      assert [item][..0] == [];
    }
    assert e.status == HasValue && e.id == "r.f" && !e.gated by {
      assert IdOf(run, figure) == "r.f";
    }
    var gap := RowUnrequested(off, cfg, live);
    assert gap.Some?;
    var row := WholeRow(2, "r", gap.value);
    assert UnrequestedRows([run, off], cfg, live) == [row] by {
      UnrequestedStep([], run, cfg, live);
      UnrequestedStep([run], off, cfg, live);
      assert [] + [run] == [run] && [run] + [off] == [run, off];
    }
    OneRow(row, e);
  }

  lemma UnrequestedStep(bands: seq<Band>, b: Band, cfg: Config, live: Live)
    ensures var gap := RowUnrequested(b, cfg, live);
            UnrequestedRows(bands + [b], cfg, live)
            == UnrequestedRows(bands, cfg, live) + if gap.Some? then [WholeRow(b.number, b.key, gap.value)] else []
  {
    assert (bands + [b])[..|bands|] == bands;
  }

  lemma OneRow(row: Listing, e: Entry)
    requires row.WholeRow? && row.key == "r" && e.id == "r.f" && !e.gated
    ensures Places(e.id, Sort([row] + Groups([e], RowKeys([row])), ByRow), []) == 1
  {
    assert [e][..0] == [];
    assert Groups([e], RowKeys([row])) == [];
    var none: seq<Listing> := [];
    ListingKinds([row], none);
    assert [row] + none == [row] && row in [row];
    NoNames();
    DotAtExact("r", "f");
    assert "r.f" == "r" + "." + "f";
    assert Prefix("r.f") == "r";
    assert "r" in RowKeys([row]);
  }
}
