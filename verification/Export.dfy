/**
 The export of the old database: which rows go, and which references between
 them survive (flightnotify/d1_export.py, `collect` and `_resolve_references`).
 A row is its key and the values of its referring columns.
 */
module Export {
  import opened Prelude

  datatype Table =
    | Trackers
    | ConfigVersions
    | Markets
    | Candidates
    | SearchRuns
    | Observations
    | AlertEvents
    | ProviderUsage
    | ProviderCalls
    | AppSettings

  datatype Reference = Reference(parent: Table, required: bool, enforced: bool)

  /** Where the row names the tracker it belongs to: nowhere, in its own key, or in one of its references. */
  datatype Owner = Nobody | ItsKey | ItsReference(r: nat)

  datatype Spec = Spec(table: Table, owner: Owner, references: seq<Reference>)

  /** In the order in which the tables are written. */
  const TABLES: seq<Spec> := [
    Spec(Trackers, ItsKey,
         [Reference(ConfigVersions, false, false), Reference(Observations, false, false),
           Reference(Observations, false, false)]),
    Spec(ConfigVersions, ItsReference(0), [Reference(Trackers, true, true)]),
    Spec(Markets, ItsReference(0), [Reference(Trackers, true, true)]),
    Spec(Candidates, ItsReference(0),
         [Reference(Trackers, true, true), Reference(ConfigVersions, true, true), Reference(SearchRuns, false, false)]),
    Spec(SearchRuns, ItsReference(0),
         [Reference(Trackers, true, true), Reference(ConfigVersions, false, true),
           Reference(Observations, false, false)]),
    Spec(Observations, ItsReference(1),
         [Reference(SearchRuns, true, true), Reference(Trackers, true, true), Reference(ConfigVersions, false, true)]),
    Spec(AlertEvents, ItsReference(0),
         [Reference(Trackers, false, true), Reference(ConfigVersions, false, true),
           Reference(Observations, false, true)]),
    Spec(ProviderUsage, Nobody, []),
    Spec(ProviderCalls, Nobody, [Reference(SearchRuns, false, false)]),
    Spec(AppSettings, Nobody, [])]

  /** The place of a table in the order of writing. */
  function PlaceOf(t: Table): (p: nat)
    ensures p < |TABLES| && TABLES[p].table == t
  {
    match t
    case Trackers => 0
    case ConfigVersions => 1
    case Markets => 2
    case Candidates => 3
    case SearchRuns => 4
    case Observations => 5
    case AlertEvents => 6
    case ProviderUsage => 7
    case ProviderCalls => 8
    case AppSettings => 9
  }

  /** What the target schema enforces points backwards. */
  lemma EnforcedPointsBack(t: nat, r: nat)
    requires t < |TABLES| && r < |TABLES[t].references| && TABLES[t].references[r].enforced
    ensures PlaceOf(TABLES[t].references[r].parent) < t
  {
  }

  /** A row of the source; `converts` tells whether the program can convert all of its values. */
  datatype Row = Row(key: int, refs: seq<Option<int>>, converts: bool)

  datatype ExportError = Unreadable(t: nat, key: int) | DanglingReference(t: nat, r: nat, value: int)

  /** The rows have a value for each reference of their table. */
  predicate Fits(spec: Spec, rows: seq<Row>) {
    forall i :: 0 <= i < |rows| ==> |rows[i].refs| == |spec.references|
  }

  /** One list of rows for each table. */
  predicate Shaped(tables: seq<seq<Row>>) {
    |tables| == |TABLES| && forall t :: 0 <= t < |tables| ==> Fits(TABLES[t], tables[t])
  }

  function OwnerOf(spec: Spec, row: Row): Option<int> {
    match spec.owner
    case Nobody => None
    case ItsKey => Some(row.key)
    case ItsReference(r) => if r < |row.refs| then row.refs[r] else None
  }

  /** Trackers left behind, and settings that are never exported. */
  datatype Exclusions = Exclusions(trackers: set<int>, settings: set<int>)

  predicate IsExcluded(spec: Spec, row: Row, excluded: Exclusions) {
    || (OwnerOf(spec, row).Some? && OwnerOf(spec, row).value in excluded.trackers)
    || (spec.table.AppSettings? && row.key in excluded.settings)
  }

  /** The rows of a table without the excluded ones. */
  function Kept(spec: Spec, rows: seq<Row>, excluded: Exclusions): (r: seq<Row>)
    ensures forall row :: row in r <==> row in rows && !IsExcluded(spec, row, excluded)
  {
    if rows == [] then []
    else
      var init, last := rows[..|rows| - 1], rows[|rows| - 1];
      assert rows == init + [last];
      Kept(spec, init, excluded) + if IsExcluded(spec, last, excluded) then [] else [last]
  }

  function KeysOf(rows: seq<Row>): set<int> {
    set i | 0 <= i < |rows| :: rows[i].key
  }

  function Present(tables: seq<seq<Row>>): (present: seq<set<int>>)
    ensures |present| == |tables| && forall t :: 0 <= t < |tables| ==> present[t] == KeysOf(tables[t])
  {
    seq(|tables|, t requires 0 <= t < |tables| => KeysOf(tables[t]))
  }

  /** A value that names no exported row. */
  predicate Dangles(value: Option<int>, known: set<int>) {
    value.Some? && value.value !in known
  }

  predicate IsFatal(reference: Reference) {
    reference.required && reference.enforced
  }

  /** What becomes of the value of a reference. */
  function Settled(value: Option<int>, known: set<int>): Option<int> {
    if Dangles(value, known) then None else value
  }

  /** For each reference of a table the keys it may name. */
  function Knowns(spec: Spec, present: seq<set<int>>): (knowns: seq<set<int>>)
    requires |present| == |TABLES|
    ensures |knowns| == |spec.references|
    ensures forall r :: 0 <= r < |knowns| ==> knowns[r] == present[PlaceOf(spec.references[r].parent)]
  {
    seq(|spec.references|, r requires 0 <= r < |spec.references| => present[PlaceOf(spec.references[r].parent)])
  }

  /** The row with every dangling reference cleared. */
  predicate IsRepaired(before: Row, after: Row, knowns: seq<set<int>>) {
    && after.key == before.key && after.converts == before.converts && |after.refs| == |before.refs| == |knowns|
    && forall r :: 0 <= r < |after.refs| ==> after.refs[r] == Settled(before.refs[r], knowns[r])
  }

  /** A reference of the row that may not dangle does. */
  predicate BreaksAt(spec: Spec, row: Row, r: nat, knowns: seq<set<int>>) {
    && r < |row.refs| && r < |spec.references| && r < |knowns|
    && IsFatal(spec.references[r]) && Dangles(row.refs[r], knowns[r])
  }

  ghost predicate ReferenceBreaks(spec: Spec, rows: seq<Row>, knowns: seq<set<int>>, r: nat) {
    exists i :: 0 <= i < |rows| && BreaksAt(spec, rows[i], r, knowns)
  }

  /** Somewhere a reference that may not dangle does. */
  ghost predicate Breaks(tables: seq<seq<Row>>, present: seq<set<int>>)
    requires |tables| == |present| == |TABLES|
  {
    exists t: nat, r: nat :: t < |tables| && ReferenceBreaks(TABLES[t], tables[t], Knowns(TABLES[t], present), r)
  }

  function ClearedAt(row: Row, r: nat, known: set<int>): Row
    requires r < |row.refs|
  {
    row.(refs := row.refs[r := Settled(row.refs[r], known)])
  }

  /** The row once its first k references have been looked at. */
  function Cleared(row: Row, knowns: seq<set<int>>, k: nat): (r: Row)
    requires k <= |row.refs| == |knowns|
    ensures |r.refs| == |row.refs|
  {
    if k == 0 then row else ClearedAt(Cleared(row, knowns, k - 1), k - 1, knowns[k - 1])
  }

  lemma {:induction false} ClearedOne(row: Row, knowns: seq<set<int>>, k: nat, j: nat)
    requires k <= |row.refs| == |knowns| && j < |row.refs|
    ensures
      var c := Cleared(row, knowns, k);
      && c.key == row.key && c.converts == row.converts
      && c.refs[j] == if j < k then Settled(row.refs[j], knowns[j]) else row.refs[j]
  {
    if k > 0 {
      ClearedOne(row, knowns, k - 1, j);
    }
  }

  lemma {:induction false} ClearedKeeps(row: Row, knowns: seq<set<int>>, k: nat)
    requires k <= |row.refs| == |knowns|
    ensures Cleared(row, knowns, k).key == row.key && Cleared(row, knowns, k).converts == row.converts
  {
    if k > 0 {
      ClearedKeeps(row, knowns, k - 1);
    }
  }

  /** The first r references of every row have been looked at, and none of them breaks. */
  ghost predicate Looked(spec: Spec, before: seq<Row>, now: seq<Row>, knowns: seq<set<int>>, r: nat) {
    && |now| == |before|
    && (forall i :: 0 <= i < |now| ==> r <= |before[i].refs| == |knowns| && now[i] == Cleared(before[i], knowns, r))
    && forall q: nat :: q < r ==> !ReferenceBreaks(spec, before, knowns, q)
  }

  /** One reference has been looked at in every row, and breaks in none. */
  ghost predicate ReferenceCleared(spec: Spec, before: seq<Row>, now: seq<Row>, knowns: seq<set<int>>, r: nat) {
    && |now| == |before| && r < |knowns| && !ReferenceBreaks(spec, before, knowns, r)
    && forall i :: 0 <= i < |now| ==> r < |before[i].refs| && now[i] == ClearedAt(before[i], r, knowns[r])
  }

  /** Every dangling reference of the table is cleared, and none of them broke it. */
  ghost predicate TableRepaired(spec: Spec, before: seq<Row>, now: seq<Row>, knowns: seq<set<int>>) {
    && |now| == |before|
    && (forall i :: 0 <= i < |now| ==> IsRepaired(before[i], now[i], knowns))
    && forall r: nat :: !ReferenceBreaks(spec, before, knowns, r)
  }

  /** Looking at other references of a row does not change whether this one breaks. */
  lemma SameUntilLooked(spec: Spec, before: seq<Row>, now: seq<Row>, knowns: seq<set<int>>, r: nat)
    requires Looked(spec, before, now, knowns, r) && r < |knowns|
    ensures ReferenceBreaks(spec, now, knowns, r) <==> ReferenceBreaks(spec, before, knowns, r)
  {
    forall i | 0 <= i < |now| ensures BreaksAt(spec, now[i], r, knowns) <==> BreaksAt(spec, before[i], r, knowns) {
      ClearedOne(before[i], knowns, r, r);
    }
  }

  lemma LookedNext(
    spec: Spec, before: seq<Row>, at: seq<Row>, now: seq<Row>, knowns: seq<set<int>>, r: nat)
    requires Looked(spec, before, at, knowns, r) && ReferenceCleared(spec, at, now, knowns, r)
    ensures Looked(spec, before, now, knowns, r + 1)
  {
    SameUntilLooked(spec, before, at, knowns, r);
  }

  lemma LookedThrough(spec: Spec, before: seq<Row>, now: seq<Row>, knowns: seq<set<int>>)
    requires Looked(spec, before, now, knowns, |knowns|) && |knowns| == |spec.references|
    ensures TableRepaired(spec, before, now, knowns)
  {
    forall i | 0 <= i < |now| ensures IsRepaired(before[i], now[i], knowns) {
      ClearedKeeps(before[i], knowns, |knowns|);
      forall r | 0 <= r < |knowns| ensures now[i].refs[r] == Settled(before[i].refs[r], knowns[r]) {
        ClearedOne(before[i], knowns, |knowns|, r);
      }
    }
  }

  /** No other table has changed, and this one has as many rows as before, of the same shape. */
  predicate OnlyTable(t: nat, before: seq<seq<Row>>, now: seq<seq<Row>>) {
    && |now| == |before| && t < |now| && |now[t]| == |before[t]|
    && (forall i :: 0 <= i < |now[t]| ==> |now[t][i].refs| == |before[t][i].refs|)
    && forall u :: 0 <= u < |now| && u != t ==> now[u] == before[u]
  }

  lemma OnlyTableThrough(t: nat, a: seq<seq<Row>>, b: seq<seq<Row>>, c: seq<seq<Row>>)
    requires OnlyTable(t, a, b) && OnlyTable(t, b, c)
    ensures OnlyTable(t, a, c)
  {
  }

  class ExportResult {
    var tables: seq<seq<Row>>

    constructor (tables: seq<seq<Row>>)
      ensures this.tables == tables
    {
      this.tables := tables;
    }

    /** One reference of one table, row by row, stopping at a required one that dangles. */
    method ResolveReference(t: nat, spec: Spec, r: nat, knowns: seq<set<int>>) returns (error: Option<ExportError>)
      requires t < |tables| && Fits(spec, tables[t]) && r < |spec.references| == |knowns|
      modifies this
      ensures OnlyTable(t, old(tables), tables)
      ensures error.None? ==> ReferenceCleared(spec, old(tables)[t], tables[t], knowns, r)
      ensures error.Some? ==> ReferenceBreaks(spec, old(tables)[t], knowns, r)
      ensures error.Some? ==>
        error.value.DanglingReference? && error.value.t == t && error.value.r == r
        && exists i :: 0 <= i < |old(tables)[t]| && BreaksAt(spec, old(tables)[t][i], r, knowns)
                       && old(tables)[t][i].refs[r] == Some(error.value.value)
    {
      ghost var before := tables;
      var reference, known := spec.references[r], knowns[r];
      var i := 0;
      while i < |tables[t]|
        invariant OnlyTable(t, before, tables) && 0 <= i <= |tables[t]|
        invariant forall j :: i <= j < |tables[t]| ==> tables[t][j] == before[t][j]
        invariant forall j :: 0 <= j < i ==>
          !BreaksAt(spec, before[t][j], r, knowns) && tables[t][j] == ClearedAt(before[t][j], r, known)
      {
        var row := tables[t][i];
        if Dangles(row.refs[r], known) {
          if reference.required && reference.enforced {
            return Some(DanglingReference(t, r, row.refs[r].value));
          }
          tables := tables[t := tables[t][i := row.(refs := row.refs[r := None])]];
        }
        i := i + 1;
      }
      return None;
    }

    /** Every reference of one table. */
    method ResolveTable(t: nat, spec: Spec, present: seq<set<int>>) returns (error: Option<ExportError>)
      requires t < |tables| && Fits(spec, tables[t]) && |present| == |TABLES|
      modifies this
      ensures OnlyTable(t, old(tables), tables)
      ensures error.None? ==> TableRepaired(spec, old(tables)[t], tables[t], Knowns(spec, present))
      ensures error.Some? ==>
        && error.value.DanglingReference?
        && exists r: nat :: ReferenceBreaks(spec, old(tables)[t], Knowns(spec, present), r)
    {
      ghost var before := tables;
      var knowns := Knowns(spec, present);
      var r := 0;
      while r < |spec.references|
        invariant 0 <= r <= |spec.references| && OnlyTable(t, before, tables)
        invariant Looked(spec, before[t], tables[t], knowns, r)
      {
        ghost var at := tables;
        SameUntilLooked(spec, before[t], tables[t], knowns, r);
        error := ResolveReference(t, spec, r, knowns);
        OnlyTableThrough(t, before, at, tables);
        if error.Some? {
          return;
        }
        LookedNext(spec, before[t], at[t], tables[t], knowns, r);
        r := r + 1;
      }
      LookedThrough(spec, before[t], tables[t], knowns);
      return None;
    }

    /**
     Every table: either a reference that may not dangle does, or every dangling one is
     cleared and nothing else changes.
     */
    method ResolveReferences() returns (error: Option<ExportError>)
      requires Shaped(tables)
      modifies this
      ensures error.Some? <==> Breaks(old(tables), Present(old(tables)))
      ensures error.Some? ==> error.value.DanglingReference?
      ensures error.None? ==> AllRepaired(old(tables), tables)
    {
      ghost var before := tables;
      var present := Present(tables);
      var t := 0;
      while t < |TABLES|
        invariant 0 <= t <= |TABLES| == |tables|
        invariant forall u :: t <= u < |TABLES| ==> tables[u] == before[u]
        invariant forall u :: 0 <= u < t ==>
          TableRepaired(TABLES[u], before[u], tables[u], Knowns(TABLES[u], present))
      {
        error := ResolveTable(t, TABLES[t], present);
        if error.Some? {
          return;
        }
        t := t + 1;
      }
      NothingBreaks(before, tables);
      return None;
    }
  }

  ghost predicate AllRepaired(before: seq<seq<Row>>, after: seq<seq<Row>>) {
    |after| == |before| == |TABLES| && forall t :: 0 <= t < |TABLES| ==>
      TableRepaired(TABLES[t], before[t], after[t], Knowns(TABLES[t], Present(before)))
  }

  lemma NothingBreaks(before: seq<seq<Row>>, after: seq<seq<Row>>)
    requires AllRepaired(before, after)
    ensures !Breaks(before, Present(before))
  {
    var present := Present(before);
    forall t: nat, r: nat | t < |before| ensures !ReferenceBreaks(TABLES[t], before[t], Knowns(TABLES[t], present), r) {
      assert TableRepaired(TABLES[t], before[t], after[t], Knowns(TABLES[t], present));
    }
  }

  // --------------------------------------------------------- what is exported

  predicate HasKey(rows: seq<Row>, key: int) {
    exists j :: 0 <= j < |rows| && rows[j].key == key
  }

  /** The reference is empty, or names an exported row, and where the schema enforces it, one written earlier. */
  predicate IsConsistent(tables: seq<seq<Row>>, t: nat, reference: Reference, value: Option<int>)
    requires |tables| == |TABLES|
  {
    value.Some? ==>
      && HasKey(tables[PlaceOf(reference.parent)], value.value)
      && (reference.enforced ==> PlaceOf(reference.parent) < t)
  }

  predicate Consistent(tables: seq<seq<Row>>)
    requires Shaped(tables)
  {
    forall t, i, r :: 0 <= t < |tables| && 0 <= i < |tables[t]| && 0 <= r < |TABLES[t].references| ==>
      IsConsistent(tables, t, TABLES[t].references[r], tables[t][i].refs[r])
  }

  lemma SameKeys(before: seq<Row>, after: seq<Row>, knowns: seq<set<int>>, key: int)
    requires |before| == |after| && forall i :: 0 <= i < |after| ==> IsRepaired(before[i], after[i], knowns)
    requires key in KeysOf(before)
    ensures HasKey(after, key)
  {
    var j :| 0 <= j < |before| && before[j].key == key;
    assert IsRepaired(before[j], after[j], knowns) && after[j].key == key;
  }

  lemma RepairedFits(spec: Spec, before: seq<Row>, after: seq<Row>, knowns: seq<set<int>>)
    requires TableRepaired(spec, before, after, knowns) && |knowns| == |spec.references|
    ensures Fits(spec, after)
  {
    forall i | 0 <= i < |after| ensures |after[i].refs| == |spec.references| {
      assert IsRepaired(before[i], after[i], knowns);
    }
  }

  lemma RepairedIsShaped(before: seq<seq<Row>>, after: seq<seq<Row>>)
    requires AllRepaired(before, after)
    ensures Shaped(after)
  {
    forall t | 0 <= t < |TABLES| ensures Fits(TABLES[t], after[t]) {
      RepairedFits(TABLES[t], before[t], after[t], Knowns(TABLES[t], Present(before)));
    }
  }

  lemma ReferenceIsConsistent(before: seq<seq<Row>>, after: seq<seq<Row>>, t: nat, i: nat, r: nat)
    requires AllRepaired(before, after) && t < |TABLES| && i < |after[t]| && r < |TABLES[t].references|
    requires |after[t][i].refs| == |TABLES[t].references|
    ensures IsConsistent(after, t, TABLES[t].references[r], after[t][i].refs[r])
  {
    var spec, present := TABLES[t], Present(before);
    var p, value := PlaceOf(spec.references[r].parent), after[t][i].refs[r];
    assert IsRepaired(before[t][i], after[t][i], Knowns(spec, present));
    if value.Some? {
      assert TableRepaired(TABLES[p], before[p], after[p], Knowns(TABLES[p], present));
      SameKeys(before[p], after[p], Knowns(TABLES[p], present), value.value);
      if spec.references[r].enforced {
        EnforcedPointsBack(t, r);
      }
    }
  }

  lemma RepairedIsConsistent(before: seq<seq<Row>>, after: seq<seq<Row>>)
    requires AllRepaired(before, after)
    ensures Shaped(after) && Consistent(after)
  {
    RepairedIsShaped(before, after);
    forall t, i, r | 0 <= t < |after| && 0 <= i < |after[t]| && 0 <= r < |TABLES[t].references|
      ensures IsConsistent(after, t, TABLES[t].references[r], after[t][i].refs[r])
    {
      assert Fits(TABLES[t], after[t]);
      ReferenceIsConsistent(before, after, t, i, r);
    }
  }

  lemma RepairedIsNotExcluded(spec: Spec, before: Row, after: Row, knowns: seq<set<int>>, excluded: Exclusions)
    requires IsRepaired(before, after, knowns) && !IsExcluded(spec, before, excluded)
    ensures !IsExcluded(spec, after, excluded)
  {
  }

  /** Every table without its excluded rows. */
  function KeptTables(source: seq<seq<Row>>, excluded: Exclusions): (kept: seq<seq<Row>>)
    requires Shaped(source)
    ensures |kept| == |TABLES| && forall t :: 0 <= t < |kept| ==> kept[t] == Kept(TABLES[t], source[t], excluded)
  {
    seq(|TABLES|, t requires 0 <= t < |TABLES| => Kept(TABLES[t], source[t], excluded))
  }

  lemma KeptFits(spec: Spec, rows: seq<Row>, excluded: Exclusions)
    requires Fits(spec, rows)
    ensures Fits(spec, Kept(spec, rows, excluded))
  {
    var kept := Kept(spec, rows, excluded);
    forall i | 0 <= i < |kept| ensures |kept[i].refs| == |spec.references| {
      assert kept[i] in kept && kept[i] in rows;
    }
  }

  lemma KeptIsShaped(source: seq<seq<Row>>, excluded: Exclusions)
    requires Shaped(source)
    ensures Shaped(KeptTables(source, excluded))
  {
    forall t | 0 <= t < |TABLES| ensures Fits(TABLES[t], KeptTables(source, excluded)[t]) {
      KeptFits(TABLES[t], source[t], excluded);
    }
  }

  predicate AllConvert(rows: seq<Row>) {
    forall i :: 0 <= i < |rows| ==> rows[i].converts
  }

  predicate Readable(tables: seq<seq<Row>>) {
    forall t :: 0 <= t < |tables| ==> AllConvert(tables[t])
  }

  predicate NoneExcluded(tables: seq<seq<Row>>, excluded: Exclusions)
    requires |tables| == |TABLES|
  {
    forall t, i :: 0 <= t < |TABLES| && 0 <= i < |tables[t]| ==> !IsExcluded(TABLES[t], tables[t][i], excluded)
  }

  /**
   Every kept row is there with its dangling references cleared, no excluded row is, and no
   reference is left hanging.
   */
  ghost predicate IsExport(kept: seq<seq<Row>>, tables: seq<seq<Row>>, excluded: Exclusions) {
    Shaped(tables) && Consistent(tables) && AllRepaired(kept, tables) && NoneExcluded(tables, excluded)
  }

  lemma RepairedIsExport(source: seq<seq<Row>>, tables: seq<seq<Row>>, excluded: Exclusions)
    requires Shaped(source) && AllRepaired(KeptTables(source, excluded), tables)
    ensures IsExport(KeptTables(source, excluded), tables, excluded)
  {
    var kept := KeptTables(source, excluded);
    RepairedIsConsistent(kept, tables);
    forall t, i | 0 <= t < |TABLES| && 0 <= i < |tables[t]| ensures !IsExcluded(TABLES[t], tables[t][i], excluded) {
      var knowns := Knowns(TABLES[t], Present(kept));
      assert TableRepaired(TABLES[t], kept[t], tables[t], knowns);
      assert IsRepaired(kept[t][i], tables[t][i], knowns) && kept[t][i] in Kept(TABLES[t], source[t], excluded);
      RepairedIsNotExcluded(TABLES[t], kept[t][i], tables[t][i], knowns, excluded);
    }
  }

  /** Reads one table: the kept rows, unless one of them does not convert. */
  method CollectTable(t: nat, spec: Spec, source: seq<Row>, excluded: Exclusions)
    returns (r: Result<seq<Row>, ExportError>)
    ensures r.Success? <==> AllConvert(Kept(spec, source, excluded))
    ensures r.Success? ==> r.value == Kept(spec, source, excluded)
    ensures r.Failure? ==> r.error.Unreadable? && r.error.t == t
  {
    var rows: seq<Row> := [];
    for i := 0 to |source|
      invariant rows == Kept(spec, source[..i], excluded) && AllConvert(rows)
    {
      assert source[..i + 1][..i] == source[..i];
      if !IsExcluded(spec, source[i], excluded) {
        if !source[i].converts {
          assert source[i] in Kept(spec, source, excluded);
          return Failure(Unreadable(t, source[i].key));
        }
        rows := rows + [source[i]];
      }
    }
    assert source[..|source|] == source;
    r := Success(rows);
  }

  // ------------------------------------------------ the same, table by table

  /** A row of a tracker that is left behind, or a setting that never goes. */
  predicate IsLeftOut(table: Table, row: Row, excluded: Exclusions) {
    match table
    case Trackers => row.key in excluded.trackers
    case Observations => Refers(row, 1, excluded.trackers)
    case AppSettings => row.key in excluded.settings
    case ProviderUsage => false
    case ProviderCalls => false
    case _ => Refers(row, 0, excluded.trackers)
  }

  predicate Refers(row: Row, r: nat, keys: set<int>) {
    r < |row.refs| && row.refs[r].Some? && row.refs[r].value in keys
  }

  function Remaining(table: Table, rows: seq<Row>, excluded: Exclusions): seq<Row> {
    if rows == [] then []
    else
      var n := |rows| - 1;
      Remaining(table, rows[..n], excluded) + if IsLeftOut(table, rows[n], excluded) then [] else [rows[n]]
  }

  function AllRemaining(source: seq<seq<Row>>, excluded: Exclusions): seq<seq<Row>>
    requires |source| == |TABLES|
  {
    seq(|TABLES|, t requires 0 <= t < |TABLES| => Remaining(TABLES[t].table, source[t], excluded))
  }

  /** A reference names no row that remains. */
  predicate HangsLoose(remaining: seq<seq<Row>>, reference: Reference, value: Option<int>)
    requires |remaining| == |TABLES|
  {
    value.Some? && !HasKey(remaining[PlaceOf(reference.parent)], value.value)
  }

  /** The row with its loose references emptied, and nothing else changed. */
  predicate Tightened(remaining: seq<seq<Row>>, spec: Spec, before: Row, after: Row)
    requires |remaining| == |TABLES|
  {
    && after.key == before.key && |after.refs| == |before.refs| == |spec.references|
    && forall r :: 0 <= r < |after.refs| ==>
         after.refs[r] == if HangsLoose(remaining, spec.references[r], before.refs[r]) then None else before.refs[r]
  }

  /** Some row that remains cannot be converted. */
  predicate CannotConvert(remaining: seq<seq<Row>>) {
    exists t, i :: 0 <= t < |remaining| && 0 <= i < |remaining[t]| && !remaining[t][i].converts
  }

  /** The i-th row of a table needs a row that does not remain. */
  predicate NeedsMissing(remaining: seq<seq<Row>>, t: nat, i: nat, r: nat)
    requires |remaining| == |TABLES|
  {
    && t < |TABLES| && i < |remaining[t]| && r < |remaining[t][i].refs| && r < |TABLES[t].references|
    && TABLES[t].references[r].required && TABLES[t].references[r].enforced
    && HangsLoose(remaining, TABLES[t].references[r], remaining[t][i].refs[r])
  }

  ghost predicate SomethingMissing(remaining: seq<seq<Row>>)
    requires |remaining| == |TABLES|
  {
    exists t: nat, i: nat, r: nat :: NeedsMissing(remaining, t, i, r)
  }

  /** All remaining rows in their order, each with its loose references emptied. */
  predicate Exports(remaining: seq<seq<Row>>, tables: seq<seq<Row>>)
    requires |remaining| == |TABLES|
  {
    |tables| == |TABLES| && forall t :: 0 <= t < |TABLES| ==>
      |tables[t]| == |remaining[t]|
      && forall i :: 0 <= i < |tables[t]| ==> Tightened(remaining, TABLES[t], remaining[t][i], tables[t][i])
  }

  lemma ExcludedIsLeftOut(t: nat, row: Row, excluded: Exclusions)
    requires t < |TABLES|
    ensures IsExcluded(TABLES[t], row, excluded) <==> IsLeftOut(TABLES[t].table, row, excluded)
  {
  }

  /** The two ways of telling what is left out agree on every row of the table. */
  ghost predicate LeavesOutAlike(spec: Spec, excluded: Exclusions) {
    forall row :: IsExcluded(spec, row, excluded) == IsLeftOut(spec.table, row, excluded)
  }

  lemma {:induction false} KeptIsRemaining(spec: Spec, rows: seq<Row>, excluded: Exclusions)
    requires LeavesOutAlike(spec, excluded)
    ensures Kept(spec, rows, excluded) == Remaining(spec.table, rows, excluded)
    decreases |rows|
  {
    if rows != [] {
      var n := |rows| - 1;
      KeptIsRemaining(spec, rows[..n], excluded);
      assert IsExcluded(spec, rows[n], excluded) == IsLeftOut(spec.table, rows[n], excluded);
    }
  }

  lemma KeptTablesRemain(source: seq<seq<Row>>, excluded: Exclusions)
    requires Shaped(source)
    ensures KeptTables(source, excluded) == AllRemaining(source, excluded)
  {
    forall t | 0 <= t < |TABLES| ensures KeptTables(source, excluded)[t] == AllRemaining(source, excluded)[t] {
      forall row ensures IsExcluded(TABLES[t], row, excluded) == IsLeftOut(TABLES[t].table, row, excluded) {
        ExcludedIsLeftOut(t, row, excluded);
      }
      assert LeavesOutAlike(TABLES[t], excluded);
      KeptIsRemaining(TABLES[t], source[t], excluded);
    }
  }

  lemma KeysAreKeys(rows: seq<Row>, key: int)
    ensures key in KeysOf(rows) <==> HasKey(rows, key)
  {
  }

  lemma DanglingIsLoose(kept: seq<seq<Row>>, t: nat, r: nat, value: Option<int>)
    requires |kept| == |TABLES| && t < |TABLES| && r < |TABLES[t].references|
    ensures
      Dangles(value, Knowns(TABLES[t], Present(kept))[r]) <==> HangsLoose(kept, TABLES[t].references[r], value)
  {
    if value.Some? {
      KeysAreKeys(kept[PlaceOf(TABLES[t].references[r].parent)], value.value);
    }
  }

  lemma RepairedIsTightened(kept: seq<seq<Row>>, t: nat, before: Row, after: Row)
    requires |kept| == |TABLES| && t < |TABLES| && IsRepaired(before, after, Knowns(TABLES[t], Present(kept)))
    ensures Tightened(kept, TABLES[t], before, after)
  {
    var knowns := Knowns(TABLES[t], Present(kept));
    forall r | 0 <= r < |after.refs|
      ensures after.refs[r]
           == if HangsLoose(kept, TABLES[t].references[r], before.refs[r]) then None else before.refs[r]
    {
      DanglingIsLoose(kept, t, r, before.refs[r]);
    }
  }

  lemma ExportExports(kept: seq<seq<Row>>, tables: seq<seq<Row>>)
    requires AllRepaired(kept, tables)
    ensures Exports(kept, tables)
  {
    forall t, i | 0 <= t < |TABLES| && 0 <= i < |tables[t]|
      ensures Tightened(kept, TABLES[t], kept[t][i], tables[t][i])
    {
      assert TableRepaired(TABLES[t], kept[t], tables[t], Knowns(TABLES[t], Present(kept)));
      RepairedIsTightened(kept, t, kept[t][i], tables[t][i]);
    }
    forall t | 0 <= t < |TABLES| ensures |tables[t]| == |kept[t]| {
      assert TableRepaired(TABLES[t], kept[t], tables[t], Knowns(TABLES[t], Present(kept)));
    }
  }

  lemma BreaksIsMissing(kept: seq<seq<Row>>)
    requires |kept| == |TABLES|
    ensures Breaks(kept, Present(kept)) <==> SomethingMissing(kept)
  {
    var present := Present(kept);
    if Breaks(kept, present) {
      var t: nat, r: nat :| t < |kept| && ReferenceBreaks(TABLES[t], kept[t], Knowns(TABLES[t], present), r);
      var i :| 0 <= i < |kept[t]| && BreaksAt(TABLES[t], kept[t][i], r, Knowns(TABLES[t], present));
      DanglingIsLoose(kept, t, r, kept[t][i].refs[r]);
      assert NeedsMissing(kept, t, i, r);
    }
    if SomethingMissing(kept) {
      var t: nat, i: nat, r: nat :| NeedsMissing(kept, t, i, r);
      DanglingIsLoose(kept, t, r, kept[t][i].refs[r]);
      assert BreaksAt(TABLES[t], kept[t][i], r, Knowns(TABLES[t], present));
      assert ReferenceBreaks(TABLES[t], kept[t], Knowns(TABLES[t], present), r);
    }
  }

  lemma ReadableConverts(kept: seq<seq<Row>>)
    ensures Readable(kept) <==> !CannotConvert(kept)
  {
    if !Readable(kept) {
      var t :| 0 <= t < |kept| && !AllConvert(kept[t]);
      var i :| 0 <= i < |kept[t]| && !kept[t][i].converts;
    }
  }

  /**
   Reads, filters and resolves every table. It fails exactly when a kept row
   cannot be converted, or else when a kept row has a dangling reference that
   may not dangle.
   */
  method Gather(source: seq<seq<Row>>, excluded: Exclusions) returns (r: Result<ExportResult, ExportError>)
    requires Shaped(source)
    ensures
      var kept := KeptTables(source, excluded);
      && (r.Failure? && r.error.Unreadable? <==> !Readable(kept))
      && (r.Failure? && r.error.DanglingReference? <==> Readable(kept) && Breaks(kept, Present(kept)))
      && (r.Success? ==> IsExport(kept, r.value.tables, excluded))
  {
    ghost var kept := KeptTables(source, excluded);
    var tables: seq<seq<Row>> := [];
    for t := 0 to |TABLES|
      invariant tables == kept[..t] && Readable(tables)
    {
      var rows := CollectTable(t, TABLES[t], source[t], excluded);
      if rows.Failure? {
        assert !AllConvert(kept[t]);
        return Failure(rows.error);
      }
      tables := tables + [rows.value];
    }
    assert tables == kept;
    KeptIsShaped(source, excluded);
    var result := new ExportResult(tables);
    var error := result.ResolveReferences();
    if error.Some? {
      return Failure(error.value);
    }
    RepairedIsExport(source, result.tables, excluded);
    r := Success(result);
  }

  /** The same, row by row and table by table. */
  method Collect(source: seq<seq<Row>>, excluded: Exclusions) returns (r: Result<ExportResult, ExportError>)
    requires Shaped(source)
    ensures
      var kept := KeptTables(source, excluded);
      && (r.Failure? && r.error.Unreadable? <==> !Readable(kept))
      && (r.Failure? && r.error.DanglingReference? <==> Readable(kept) && Breaks(kept, Present(kept)))
      && (r.Success? ==> IsExport(kept, r.value.tables, excluded))
    ensures
      var remaining := AllRemaining(source, excluded);
      && (r.Failure? && r.error.Unreadable? <==> CannotConvert(remaining))
      && (r.Failure? && r.error.DanglingReference? <==> !CannotConvert(remaining) && SomethingMissing(remaining))
      && (r.Success? ==> Exports(remaining, r.value.tables))
  {
    r := Gather(source, excluded);
    KeptTablesRemain(source, excluded);
    BreaksIsMissing(KeptTables(source, excluded));
    ReadableConverts(KeptTables(source, excluded));
    if r.Success? {
      ExportExports(KeptTables(source, excluded), r.value.tables);
    }
  }
}
