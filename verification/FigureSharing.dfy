/**
 When rows may share a key. A row that was never asked for is listed under its key, and
 every figure whose id starts with that key is then taken for one of its own. Placement
 stays right on every run if and only if those figures are sure to be left out too.
 */
module FigureSharing {
  import opened Wrappers
  import opened FigureAccounting

  // --- needs -----------------------------------------------------------------

  // One thing a row or figure needs of a run.
  datatype Need = Hits | Scale(k: int) | Baseline | State(s: string)

  predicate RowNeeds(b: Band, x: Need) {
    match x
    case Hits => b.needsHits
    case Scale(k) => k in b.scales
    case Baseline => b.needsBaseline
    case State(s) => s in b.states
  }

  predicate ItemNeeds(item: Item, x: Need) {
    RowNeeds(item.band, x) || (x.State? && x.s in OwnStates(item.figure))
  }

  // The settings leave the need out.
  predicate LeftOut(x: Need, cfg: Config, live: Live) {
    match x
    case Hits => !cfg.hits
    case Scale(k) => k !in cfg.scales
    case Baseline => !cfg.baseline
    case State(s) => IsUnlisted(live, s)
  }

  lemma RowLeftOut(b: Band, cfg: Config, live: Live) returns (x: Need)
    requires RowUnrequested(b, cfg, live).Some?
    ensures RowNeeds(b, x) && LeftOut(x, cfg, live)
  {
    ScalesMissingIff(b.scales, cfg.scales);
    if b.needsHits && !cfg.hits {
      x := Hits;
    } else if ScalesMissing(b.scales, cfg.scales) != [] {
      var k :| k in b.scales && k !in cfg.scales;
      x := Scale(k);
    } else if b.needsBaseline && !cfg.baseline {
      x := Baseline;
    } else {
      var i :| 0 <= i < |b.states| && IsUnlisted(live, b.states[i]);
      x := State(b.states[i]);
    }
  }

  lemma NeedLeavesRowOut(b: Band, x: Need, cfg: Config, live: Live)
    requires RowNeeds(b, x) && LeftOut(x, cfg, live)
    ensures RowUnrequested(b, cfg, live).Some?
  {
    ScalesMissingIff(b.scales, cfg.scales);
    if x.State? { var i :| 0 <= i < |b.states| && b.states[i] == x.s; }
  }

  // A figure with a need that is left out does not run and carries a gap.
  lemma NeedLeavesFigureOut(item: Item, x: Need, cfg: Config, live: Live, byId: map<string, Entry>,
                            measure: string -> (Status, Why))
    requires ItemNeeds(item, x) && LeftOut(x, cfg, live)
    ensures var e := EntryOf(item.band, item.figure, cfg, live, byId, measure);
            e.status == NotRun && e.gated && e.gap.Some?
  {
    hide EntryOf;
    GatedExactly(item.band, item.figure, cfg, live, byId, measure);
    assert forall s :: IsUnlisted(live, s) ==> !IsLive(live, s);
  }

  // --- every run -------------------------------------------------------------

  // Entry i of a run is made from the entries before it.
  lemma {:induction false} EntryAt(items: seq<Item>, cfg: Config, live: Live, measure: string -> (Status, Why), i: nat)
    requires i < |items|
    ensures RunItems(items, cfg, live, measure).0[i]
            == EntryOf(items[i].band, items[i].figure, cfg, live, RunItems(items[..i], cfg, live, measure).1, measure)
  {
    hide EntryOf;
    var n := |items| - 1;
    if i < n {
      EntryAt(items[..n], cfg, live, measure, i);
      assert items[..n][..i] == items[..i];
    }
  }

  // Row r is listed under the first part of figure i's id.
  predicate Under(bands: seq<Band>, i: nat, r: nat) {
    i < |Items(bands)| && r < |bands| && bands[r].key == Prefix(ItemId(Items(bands)[i]))
  }

  // Every figure needs all that the rows listed under its key need.
  ghost predicate Sheltered(bands: seq<Band>) {
    forall i: nat, r: nat, x :: Under(bands, i, r) && RowNeeds(bands[r], x) ==> ItemNeeds(Items(bands)[i], x)
  }

  ghost predicate AlwaysPlaced(bands: seq<Band>) {
    forall cfg, live, measure, judge, text, before, after, i: nat | i < |Items(bands)| ::
      NoFigureLines(before) && NoFigureLines(after) ==>
        PlacedRight(bands, cfg, live, measure, judge, text, before, after, i)
  }

  lemma ShelteredLeftOut(bands: seq<Band>, cfg: Config, live: Live, measure: string -> (Status, Why), i: nat)
    requires Sheltered(bands) && i < |Items(bands)|
    ensures var e := RunItems(Items(bands), cfg, live, measure).0[i];
            Prefix(e.id) in RowKeys(UnrequestedRows(bands, cfg, live)) ==> e.status == NotRun && e.gap.Some?
  {
    hide Items, RunItems, EntryOf, RowKeys, UnrequestedRows, RowUnrequested, Prefix, RowNeeds, ItemNeeds, LeftOut, IdOf;
    var items := Items(bands);
    EntryAt(items, cfg, live, measure, i);
    EntriesAccount(items, cfg, live, measure);
    var e := RunItems(items, cfg, live, measure).0[i];
    assert Accounts(e, items[i], cfg, live);
    RowKeysOf(bands, cfg, live, Prefix(e.id));
    if r :| 0 <= r < |bands| && bands[r].key == Prefix(e.id) && RowUnrequested(bands[r], cfg, live).Some? {
      var x := RowLeftOut(bands[r], cfg, live);
      assert Under(bands, i, r);
      NeedLeavesFigureOut(items[i], x, cfg, live, RunItems(items[..i], cfg, live, measure).1, measure);
    }
  }

  // The figure or its row names a state.
  predicate Stateful(item: Item) { item.band.states != [] || OwnStates(item.figure) != [] }

  // A derived figure under another row's key names a state.
  ghost predicate StatesNamed(bands: seq<Band>) {
    forall i: nat, r: nat :: Under(bands, i, r) && Items(bands)[i].figure.metric.Derived? ==>
      bands[r] == Items(bands)[i].band || Stateful(Items(bands)[i])
  }

  // A run that lacks x and no other setting, in which no state is live and every
  // measurement gives a value.
  function ConfigBut(item: Item, x: Need): Config { Config(!x.Hits?, item.band.scales, !x.Baseline?) }

  function LiveBut(x: Need): Live { if x.State? then map[x.s := Some(NOT_LISTED)] else map[] }

  function AllMeasured(id: string): (Status, Why) { (HasValue, Other("")) }

  lemma NotNeededNotLeftOut(item: Item, x: Need, byId: map<string, Entry>)
    requires !ItemNeeds(item, x) && (item.figure.metric.Measured? || Stateful(item))
    ensures LeftOut(x, ConfigBut(item, x), LiveBut(x))
    ensures var e := EntryOf(item.band, item.figure, ConfigBut(item, x), LiveBut(x), byId, AllMeasured);
            !(e.status == NotRun && e.gap.Some?)
  {
    hide EntryOf;
    var cfg, live := ConfigBut(item, x), LiveBut(x);
    GatedExactly(item.band, item.figure, cfg, live, byId, AllMeasured);
    AskedForAllBut(item, x);
    if Stateful(item) {
      assert forall s :: !IsLive(live, s);
      if item.band.states != [] {
        assert item.band.states[0] in item.band.states;
      } else if item.figure.states != [] {
        assert item.figure.states[0] in item.figure.states;
      }
    }
  }

  lemma AskedForAllBut(item: Item, x: Need)
    requires !ItemNeeds(item, x)
    ensures AskedFor(item.band, item.figure, ConfigBut(item, x), LiveBut(x))
  {
    assert forall s :: IsUnlisted(LiveBut(x), s) ==> x == State(s);
    assert forall s :: s in item.figure.states ==> s in OwnStates(item.figure);
    assert item.figure.state != "all" ==> item.figure.state in OwnStates(item.figure);
  }

  // A figure that lacks a need of a row under its key is misplaced in some run.
  lemma UnshelteredMisplaced(bands: seq<Band>, i: nat, r: nat, x: Need, judge: string -> Verdict, text: Why -> string)
    requires Apart(bands) && StatesNamed(bands) && Under(bands, i, r)
    requires RowNeeds(bands[r], x) && !ItemNeeds(Items(bands)[i], x)
    ensures var item := Items(bands)[i];
            !PlacedRight(bands, ConfigBut(item, x), LiveBut(x), AllMeasured, judge, text, [], [], i)
  {
    hide Items, RunItems, EntryOf, RowKeys, UnrequestedRows, RowUnrequested, Prefix, LeftOut, IdOf, Apart, PlacedRight,
         ConfigBut, LiveBut, Stateful;
    var items := Items(bands);
    var item := items[i];
    var cfg, live := ConfigBut(item, x), LiveBut(x);
    EntryAt(items, cfg, live, AllMeasured, i);
    EntriesAccount(items, cfg, live, AllMeasured);
    var e := RunItems(items, cfg, live, AllMeasured).0[i];
    assert Accounts(e, item, cfg, live);
    NotNeededNotLeftOut(item, x, RunItems(items[..i], cfg, live, AllMeasured).1);
    NeedLeavesRowOut(bands[r], x, cfg, live);
    RowKeysOf(bands, cfg, live, Prefix(e.id));
    PlacedIff(bands, cfg, live, AllMeasured, judge, text, [], [], i);
  }

  function NoVerdict(id: string): Verdict { Pass }

  function NoText(why: Why): string { "" }

  // Placement is right on every run, whatever the settings, live states and measurements,
  // if and only if every figure needs all that the rows under its key need. Only the
  // converse asks that a derived figure under another row's key names a state.
  lemma PlacementIff(bands: seq<Band>)
    requires Apart(bands)
    ensures Sheltered(bands) ==> AlwaysPlaced(bands)
    ensures StatesNamed(bands) ==> (AlwaysPlaced(bands) <==> Sheltered(bands))
  {
    hide Items, Apart, PlacedRight, RowNeeds, ItemNeeds, StatesNamed, RunItems, RowKeys, UnrequestedRows, Prefix;
    if Sheltered(bands) {
      forall cfg, live, measure, judge, text, before, after, i: nat
        | i < |Items(bands)| && NoFigureLines(before) && NoFigureLines(after)
        ensures PlacedRight(bands, cfg, live, measure, judge, text, before, after, i)
      {
        ShelteredLeftOut(bands, cfg, live, measure, i);
        PlacedIff(bands, cfg, live, measure, judge, text, before, after, i);
      }
    } else if StatesNamed(bands) {
      var i: nat, r: nat, x :| Under(bands, i, r) && RowNeeds(bands[r], x) && !ItemNeeds(Items(bands)[i], x);
      UnshelteredMisplaced(bands, i, r, x, NoVerdict, NoText);
      assert NoFigureLines([]);
    }
  }

  // --- a derived figure that names no state ----------------------------------

  // It may be left out through the figure it is derived from, without needing anything
  // itself: row s needs hits, r.g is derived from s.m, and another row under r needs hits.
  function LacksSource(values: set<string>): Option<string> { if "s.m" in values then None else Some("s.m") }

  const MEASURED := Figure("m", [], "all", Measured)
  const DERIVED := Figure("g", [], "all", Derived(["s.m"], LacksSource))
  const SOURCE := Band("s", 1, true, [], [], false, [MEASURED])
  const USER := Band("r", 2, false, [], [], false, [DERIVED])
  const OTHER := Band("r", 3, true, [], [], false, [])

  lemma ItemsOfThree()
    ensures Items([SOURCE, USER, OTHER]) == [Item(SOURCE, MEASURED), Item(USER, DERIVED)]
    ensures ItemId(Item(SOURCE, MEASURED)) == "s.m" && ItemId(Item(USER, DERIVED)) == "r.g"
    ensures Prefix("s.m") == "s" && Prefix("r.g") == "r"
  {
    ItemsStep([], SOURCE);
    ItemsStep([SOURCE], USER);
    ItemsStep([SOURCE, USER], OTHER);
    assert [] + [SOURCE] == [SOURCE] && [SOURCE] + [USER] == [SOURCE, USER];
    assert [SOURCE, USER] + [OTHER] == [SOURCE, USER, OTHER];
    assert ItemsOf(SOURCE, 1) == [Item(SOURCE, MEASURED)] && ItemsOf(USER, 1) == [Item(USER, DERIVED)];
    assert ItemsOf(OTHER, 0) == [];
    IdParts(SOURCE, MEASURED);
    IdParts(USER, DERIVED);
    assert IdOf(SOURCE, MEASURED) == "s.m" && IdOf(USER, DERIVED) == "r.g";
  }

  // Without hits both figures are left out.
  lemma BothLeftOut(cfg: Config, live: Live, measure: string -> (Status, Why))
    requires !cfg.hits
    ensures var es := RunItems(Items([SOURCE, USER, OTHER]), cfg, live, measure).0;
            && |es| == 2 && es[0].id == "s.m" && es[1].id == "r.g"
            && forall i :: 0 <= i < 2 ==> es[i].status == NotRun && es[i].gap.Some?
  {
    hide EntryOf, Items, RunItems, IdOf, Prefix;
    ItemsOfThree();
    var items := [Item(SOURCE, MEASURED), Item(USER, DERIVED)];
    EntriesAccount(items, cfg, live, measure);
    var es := RunItems(items, cfg, live, measure).0;
    assert Accounts(es[0], items[0], cfg, live) && Accounts(es[1], items[1], cfg, live);
    EntryAt(items, cfg, live, measure, 0);
    EntryAt(items, cfg, live, measure, 1);
    NeedLeavesFigureOut(items[0], Hits, cfg, live, RunItems(items[..0], cfg, live, measure).1, measure);
    FirstById(items, cfg, live, measure);
    var byId := RunItems(items[..1], cfg, live, measure).1;
    assert DERIVED.metric.refs[0] == "s.m";
    DerivedFollows(USER, DERIVED, cfg, live, byId, measure);
  }

  lemma FirstById(items: seq<Item>, cfg: Config, live: Live, measure: string -> (Status, Why))
    requires items != []
    ensures var e := RunItems(items, cfg, live, measure).0[0];
            RunItems(items[..1], cfg, live, measure).1 == map[e.id := e]
  {
    hide EntryOf;
    EntryAt(items, cfg, live, measure, 0);
    assert items[..1] == [] + [items[0]] && items[..0] == [];
    RunStep([], items[0], cfg, live, measure);
  }

  // So that file is placed right on every run although r.g does not need all that the rows
  // under its key need: the converse of the theorem does need the state.
  lemma StateNeeded()
    ensures var bands := [SOURCE, USER, OTHER];
            Apart(bands) && AlwaysPlaced(bands) && !Sheltered(bands) && !StatesNamed(bands)
  {
    var bands := [SOURCE, USER, OTHER];
    ThreeApart();
    assert !Sheltered(bands) && !StatesNamed(bands) by { ThreeExposed(); }
    forall cfg, live, measure, judge, text, before, after, i: nat
      | i < |Items(bands)| && NoFigureLines(before) && NoFigureLines(after)
      ensures PlacedRight(bands, cfg, live, measure, judge, text, before, after, i)
    {
      ThreePlaced(cfg, live, measure, i);
      PlacedIff(bands, cfg, live, measure, judge, text, before, after, i);
    }
  }

  lemma ThreeApart()
    ensures Apart([SOURCE, USER, OTHER])
  {
    hide Items, IdOf, Prefix;
    ItemsOfThree();
  }

  lemma ThreeExposed()
    ensures !Sheltered([SOURCE, USER, OTHER]) && !StatesNamed([SOURCE, USER, OTHER])
  {
    hide Items, IdOf, Prefix;
    ItemsOfThree();
    var bands := [SOURCE, USER, OTHER];
    assert Under(bands, 1, 2) && RowNeeds(bands[2], Hits) && !ItemNeeds(Items(bands)[1], Hits);
  }

  lemma ThreePlaced(cfg: Config, live: Live, measure: string -> (Status, Why), i: nat)
    requires i < |Items([SOURCE, USER, OTHER])|
    ensures var bands := [SOURCE, USER, OTHER];
            var e := RunItems(Items(bands), cfg, live, measure).0[i];
            Prefix(e.id) in RowKeys(UnrequestedRows(bands, cfg, live)) ==> e.status == NotRun && e.gap.Some?
  {
    hide Items, RunItems, IdOf, Prefix, RowKeys, UnrequestedRows, RowUnrequested;
    ItemsOfThree();
    var bands := [SOURCE, USER, OTHER];
    var e := RunItems(Items(bands), cfg, live, measure).0[i];
    if cfg.hits {
      RowKeysOf(bands, cfg, live, Prefix(e.id));
      forall r | 0 <= r < |bands| ensures RowUnrequested(bands[r], cfg, live).None? {
        NothingMissing(bands[r], cfg, live);
      }
    } else {
      BothLeftOut(cfg, live, measure);
    }
  }

  lemma NothingMissing(b: Band, cfg: Config, live: Live)
    requires cfg.hits && b.states == [] && b.scales == [] && !b.needsBaseline
    ensures RowUnrequested(b, cfg, live).None?
  {
  }
}
