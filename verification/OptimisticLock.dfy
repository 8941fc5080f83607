/** Optimistic locking: the compare-and-set of `versioned_update` beside saves that do not compare. */
module OptimisticLock {
  import opened Prelude
  import opened EntityTags

  // ---- compare-and-set ----

  datatype Row = Row(version: nat, fields: map<string, string>)

  type Table = map<nat, Row>

  datatype UpdateError = VersionIsManaged | Stale(current: Option<nat>)

  function VersionedUpdate(rows: Table, pk: nat, expected: nat, updates: map<string, string>)
    : Result<(Table, nat), UpdateError>
  {
    if "version" in updates then Err(VersionIsManaged)
    else if pk in rows && rows[pk].version == expected then
      Ok((rows[pk := Row(expected + 1, rows[pk].fields + updates)], expected + 1))
    else Err(Stale(if pk in rows then Some(rows[pk].version) else None))
  }

  /**
   An ordinary save of a stored row: the version grows with no comparison, unless the save lists
   its fields and the version is not among them.
   */
  function Saved(row: Row, fields: map<string, string>, versionListed: bool): Row {
    Row(if versionListed then row.version + 1 else row.version, row.fields + fields)
  }

  // ---- runs of concurrent writers ----

  datatype Action =
    | Insert(pk: nat, fields: map<string, string>)
    | Write(pk: nat, expected: nat, fields: map<string, string>)
    | Save(pk: nat, fields: map<string, string>, versionListed: bool)

  /** A version that a write or an ordinary save replaced. */
  datatype Bump = Bump(pk: nat, version: nat)

  /** The table and the replaced versions, oldest first. */
  datatype History = History(rows: Table, bumps: seq<Bump>)

  function Step(h: History, a: Action): History {
    match a
    case Insert(pk, fields) => if pk in h.rows then h else h.(rows := h.rows[pk := Row(1, fields)])
    case Write(pk, expected, fields) =>
      (match VersionedUpdate(h.rows, pk, expected, fields)
       case Ok(updated) => History(updated.0, h.bumps + [Bump(pk, expected)])
       case Err(_) => h)
    case Save(pk, fields, versionListed) =>
      if pk !in h.rows then h
      else
        History(h.rows[pk := Saved(h.rows[pk], fields, versionListed)],
                if versionListed then h.bumps + [Bump(pk, h.rows[pk].version)] else h.bumps)
  }

  function After(run: seq<Action>): History {
    if run == [] then History(map[], []) else Step(After(run[..|run| - 1]), run[|run| - 1])
  }

  function BumpsOf(bumps: seq<Bump>, pk: nat): nat {
    if bumps == [] then 0
    else BumpsOf(bumps[..|bumps| - 1], pk) + if bumps[|bumps| - 1].pk == pk then 1 else 0
  }

  /** The n-th bump of a row replaces its version n. */
  predicate BumpsInOrder(bumps: seq<Bump>) {
    bumps != [] ==>
      var last := bumps[|bumps| - 1];
      BumpsInOrder(bumps[..|bumps| - 1]) && last.version == BumpsOf(bumps[..|bumps| - 1], last.pk) + 1
  }

  predicate Counted(h: History) {
    && (forall pk :: pk in h.rows ==> h.rows[pk].version == 1 + BumpsOf(h.bumps, pk))
    && (forall pk <- Bumped(h.bumps) :: pk in h.rows)
  }

  function Bumped(bumps: seq<Bump>): set<nat> {
    if bumps == [] then {} else Bumped(bumps[..|bumps| - 1]) + {bumps[|bumps| - 1].pk}
  }

  lemma {:induction false} UnbumpedCountsZero(bumps: seq<Bump>, pk: nat)
    requires pk !in Bumped(bumps)
    ensures BumpsOf(bumps, pk) == 0
  {
    if bumps == [] {
    } else {
      UnbumpedCountsZero(bumps[..|bumps| - 1], pk);
    }
  }

  lemma BumpCounts(h: History, pk: nat, row: Row)
    requires Counted(h) && BumpsInOrder(h.bumps) && pk in h.rows && row.version == h.rows[pk].version + 1
    ensures
      var g := History(h.rows[pk := row], h.bumps + [Bump(pk, h.rows[pk].version)]);
      Counted(g) && BumpsInOrder(g.bumps)
  {
    var bumps := h.bumps + [Bump(pk, h.rows[pk].version)];
    assert bumps[..|bumps| - 1] == h.bumps;
  }

  lemma InsertCounts(h: History, pk: nat, fields: map<string, string>)
    requires Counted(h) && BumpsInOrder(h.bumps)
    ensures
      var g := Step(h, Insert(pk, fields));
      Counted(g) && BumpsInOrder(g.bumps)
  {
    if pk !in h.rows {
      UnbumpedCountsZero(h.bumps, pk);
    }
  }

  lemma StepCounts(h: History, a: Action)
    requires Counted(h) && BumpsInOrder(h.bumps)
    ensures Counted(Step(h, a)) && BumpsInOrder(Step(h, a).bumps)
  {
    match a
    case Insert(pk, fields) => InsertCounts(h, pk, fields);
    case Write(pk, expected, fields) =>
      if VersionedUpdate(h.rows, pk, expected, fields).Ok? {
        BumpCounts(h, pk, Row(expected + 1, h.rows[pk].fields + fields));
      }
    case Save(pk, fields, versionListed) =>
      if pk in h.rows && versionListed {
        BumpCounts(h, pk, Saved(h.rows[pk], fields, true));
      }
  }

  /** In every run a row's version is one more than its versioned writes and ordinary saves. */
  lemma {:induction false} VersionCountsWrites(run: seq<Action>)
    ensures Counted(After(run)) && BumpsInOrder(After(run).bumps)
  {
    if run == [] {
    } else {
      VersionCountsWrites(run[..|run| - 1]);
      StepCounts(After(run[..|run| - 1]), run[|run| - 1]);
    }
  }

  lemma {:induction false} BumpsGrow(bumps: seq<Bump>, i: nat, pk: nat)
    requires i <= |bumps|
    ensures BumpsOf(bumps[..i], pk) <= BumpsOf(bumps, pk)
  {
    if i == |bumps| {
      assert bumps[..i] == bumps;
    } else {
      assert bumps[..|bumps| - 1][..i] == bumps[..i];
      BumpsGrow(bumps[..|bumps| - 1], i, pk);
    }
  }

  lemma {:induction false} OrderAt(bumps: seq<Bump>, i: nat)
    requires BumpsInOrder(bumps) && i < |bumps|
    ensures bumps[i].version == BumpsOf(bumps[..i], bumps[i].pk) + 1
  {
    if i < |bumps| - 1 {
      OrderAt(bumps[..|bumps| - 1], i);
      assert bumps[..|bumps| - 1][..i] == bumps[..i];
    }
  }

  /** No version of a row is replaced twice, so of all writes presenting one version at most one succeeds. */
  lemma NoLostUpdate(run: seq<Action>, i: nat, j: nat)
    requires i < j < |After(run).bumps|
    ensures After(run).bumps[i] != After(run).bumps[j]
  {
    var bumps := After(run).bumps;
    VersionCountsWrites(run);
    if bumps[i].pk == bumps[j].pk {
      OrderAt(bumps, i);
      OrderAt(bumps, j);
      assert bumps[..i + 1][..i] == bumps[..i];
      BumpsGrow(bumps[..j], i + 1, bumps[i].pk);
      assert bumps[..j][..i + 1] == bumps[..i + 1];
    }
  }

  lemma {:induction false} RowsStay(run: seq<Action>, more: seq<Action>, pk: nat)
    requires pk in After(run).rows
    ensures pk in After(run + more).rows
    ensures After(run).rows[pk].version <= After(run + more).rows[pk].version
  {
    if more == [] {
      assert run + more == run;
    } else {
      assert (run + more)[..|run + more| - 1] == run + more[..|more| - 1];
      RowsStay(run, more[..|more| - 1], pk);
    }
  }

  lemma EtagReads(version: nat)
    requires version >= 1
    ensures ParseIfMatch(Some(FormatEtag(version))) == Ok(version)
  {
    assert "" + FormatEtag(version) + "" == FormatEtag(version);
    ParseFormat(version, "", "");
  }

  /** An ETag read earlier and echoed now is accepted exactly when no write or ordinary save intervened. */
  lemma {:induction false} EchoedEtagDetectsWrites(run: seq<Action>, more: seq<Action>, pk: nat,
                                                   updates: map<string, string>)
    requires pk in After(run).rows && "version" !in updates
    ensures
      var echoed := ParseIfMatch(Some(FormatEtag(After(run).rows[pk].version)));
      var now := After(run + more);
      && echoed.Ok?
      && (VersionedUpdate(now.rows, pk, echoed.value, updates).Ok?
          <==> BumpsOf(now.bumps, pk) == BumpsOf(After(run).bumps, pk))
  {
    VersionCountsWrites(run);
    VersionCountsWrites(run + more);
    RowsStay(run, more, pk);
    EtagReads(After(run).rows[pk].version);
  }

  /** A save whose listed fields omit the version changes the row, and every earlier ETag still in force stays so. */
  lemma UnlistedSaveIsInvisible(run: seq<Action>, pk: nat, fields: map<string, string>, updates: map<string, string>)
    requires pk in After(run).rows && "version" !in updates
    ensures
      var h := After(run + [Save(pk, fields, false)]);
      && pk in h.rows && h.rows[pk].fields == After(run).rows[pk].fields + fields
      && forall text :: ParseIfMatch(text).Ok? ==>
           (VersionedUpdate(h.rows, pk, ParseIfMatch(text).value, updates).Ok?
            <==> VersionedUpdate(After(run).rows, pk, ParseIfMatch(text).value, updates).Ok?)
  {
    assert (run + [Save(pk, fields, false)])[..|run + [Save(pk, fields, false)]| - 1] == run;
  }

  // ---- the stored table ----

  /** The given fields as given, every other as it was. */
  predicate Overlays(before: Row, given: map<string, string>, after: Row) {
    && after.fields.Keys == before.fields.Keys + given.Keys
    && forall name :: name in after.fields ==>
         after.fields[name] == if name in given then given[name] else before.fields[name]
  }

  class VersionedModel {
    var rows: Table
    ghost var history: seq<Action>

    ghost predicate Valid()
      reads this
    {
      After(history).rows == rows
    }

    constructor ()
      ensures Valid() && rows == map[]
    {
      rows := map[];
      history := [];
    }

    ghost method Note(a: Action)
      modifies this`history
      ensures history == old(history) + [a]
      ensures After(history) == Step(After(old(history)), a)
    {
      assert (history + [a])[..|history + [a]| - 1] == history;
      history := history + [a];
    }

    /** The version returned is one more than the writes and ordinary saves the row has had. */
    method Update(pk: nat, expected: nat, updates: map<string, string>) returns (result: Result<nat, UpdateError>)
      requires Valid()
      modifies this
      ensures Valid() && history == old(history) + [Write(pk, expected, updates)]
      ensures
        var spec := VersionedUpdate(old(rows), pk, expected, updates);
        && (spec.Ok? ==> rows == spec.value.0 && result == Ok(spec.value.1))
        && (spec.Err? ==> rows == old(rows) && result == Err(spec.error))
      ensures result ==
              if "version" in updates then Err(VersionIsManaged)
              else if pk !in old(rows) then Err(Stale(None))
              else if old(rows)[pk].version != expected then Err(Stale(Some(old(rows)[pk].version)))
              else Ok(expected + 1)
      ensures result.Ok? ==> pk in rows && rows == old(rows)[pk := rows[pk]] && Overlays(old(rows)[pk], updates, rows[pk])
      ensures result.Ok? ==> result.value == rows[pk].version == 1 + BumpsOf(After(history).bumps, pk)
      ensures result.Err? ==> rows == old(rows)
    {
      Note(Write(pk, expected, updates));
      VersionCountsWrites(history);
      if "version" in updates {
        return Err(VersionIsManaged);
      }
      var updated := 0;
      if pk in rows && rows[pk].version == expected {
        var fields := rows[pk].fields + updates;
        rows := rows[pk := Row(rows[pk].version + 1, fields)];
        updated := 1;
      }
      if updated == 1 {
        return Ok(expected + 1);
      }
      return Err(Stale(if pk in rows then Some(rows[pk].version) else None));
    }

    /** `save` of a new row, then of a stored one. */
    method Create(pk: nat, fields: map<string, string>)
      requires Valid() && pk !in rows
      modifies this
      ensures Valid() && rows == old(rows)[pk := Row(1, fields)]
    {
      Note(Insert(pk, fields));
      rows := rows[pk := Row(1, fields)];
    }

    method SaveStored(pk: nat, fields: map<string, string>, versionListed: bool)
      requires Valid() && pk in rows
      modifies this
      ensures Valid() && history == old(history) + [Save(pk, fields, versionListed)]
      ensures rows == old(rows)[pk := Saved(old(rows)[pk], fields, versionListed)]
      ensures Overlays(old(rows)[pk], fields, rows[pk])
      ensures rows[pk].version == old(rows)[pk].version + if versionListed then 1 else 0
      ensures rows[pk].version == 1 + BumpsOf(After(history).bumps, pk)
    {
      Note(Save(pk, fields, versionListed));
      VersionCountsWrites(history);
      var row := rows[pk];
      row := row.(fields := row.fields + fields);
      if versionListed {
        row := row.(version := row.version + 1);
      }
      rows := rows[pk := row];
    }
  }
}
