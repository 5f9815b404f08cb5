/**
 Building point-in-time snapshots from the atom list the CogServer returns
 (`create_point`), and indexing that list by handle (`atomspace`).
 */
module Snapshot {
  import opened Records

  /** The `{handle, sti}` projection of one REST atom record. */
  function Simplify(a: AtomRecord): AtomSti
  {
    AtomSti(a.handle, a.attentionValue.sti)
  }

  /** Projection of a whole atom list, element by element and in order. */
  function Projected(atoms: seq<AtomRecord>): (r: seq<AtomSti>)
  {
    if atoms == [] then [] else [Simplify(atoms[0])] + Projected(atoms[1..])
  }

  /** The handles of an atom list, in list order (duplicates kept). */
  function Handles(atoms: seq<AtomRecord>): seq<int>
  {
    if atoms == [] then [] else [atoms[0].handle] + Handles(atoms[1..])
  }

  /** The handles of a snapshot's atom list, in list order. */
  function StiHandles(atoms: seq<AtomSti>): seq<int>
  {
    if atoms == [] then [] else [atoms[0].handle] + StiHandles(atoms[1..])
  }

  /** Entry i of the projection is the projection of input record i. */
  lemma {:induction false} ProjectedAt(atoms: seq<AtomRecord>, i: nat)
    requires i < |atoms|
    ensures |Projected(atoms)| == |atoms|
    ensures Projected(atoms)[i] == AtomSti(atoms[i].handle, atoms[i].attentionValue.sti)
  {
    if i == 0 {
      ProjectedLength(atoms[1..]);
    } else {
      ProjectedAt(atoms[1..], i - 1);
    }
  }

  lemma {:induction false} ProjectedLength(atoms: seq<AtomRecord>)
    ensures |Projected(atoms)| == |atoms|
  {
    if atoms != [] {
      ProjectedLength(atoms[1..]);
    }
  }

  /**
   The projection works record by record: projecting a concatenation is
   concatenating the projections, so nothing is filtered, merged or reordered.
   */
  lemma {:induction false} ProjectedAppend(xs: seq<AtomRecord>, ys: seq<AtomRecord>)
    ensures Projected(xs + ys) == Projected(xs) + Projected(ys)
  {
    if xs == [] {
      assert xs + ys == ys;
    } else {
      assert (xs + ys)[1..] == xs[1..] + ys;
      ProjectedAppend(xs[1..], ys);
    }
  }

  /** The snapshot keeps exactly the input's handles, in input order, duplicates included. */
  lemma {:induction false} ProjectedKeepsHandles(atoms: seq<AtomRecord>)
    ensures StiHandles(Projected(atoms)) == Handles(atoms)
  {
    if atoms != [] {
      ProjectedKeepsHandles(atoms[1..]);
    }
  }

  /**
   `create_point`: project each atom record to `{handle, sti}` in a loop,
   then wrap the list with the caller's timestep and optional Scheme dump.
   Omitting `scheme` in the source is passing `None` here.
   */
  method CreatePoint(timestep: int, atoms: seq<AtomRecord>, scheme: Option<string>)
    returns (point: Point)
    ensures point.timestep == timestep && point.scheme == scheme
    ensures |point.atoms| == |atoms|
    ensures forall i :: 0 <= i < |atoms| ==>
      point.atoms[i] == AtomSti(atoms[i].handle, atoms[i].attentionValue.sti)
    ensures point.atoms == Projected(atoms)
  {
    var atomList: seq<AtomSti> := [];
    var k := 0;
    while k < |atoms|
      invariant 0 <= k <= |atoms|
      invariant atomList == Projected(atoms[..k])
    {
      ProjectedAppend(atoms[..k], [atoms[k]]);
      assert atoms[..k + 1] == atoms[..k] + [atoms[k]];
      atomList := atomList + [Simplify(atoms[k])];
      k := k + 1;
    }
    assert atoms[..k] == atoms;
    ProjectedLength(atoms);
    forall i | 0 <= i < |atoms|
      ensures atomList[i] == AtomSti(atoms[i].handle, atoms[i].attentionValue.sti)
    {
      ProjectedAt(atoms, i);
    }
    point := Point(timestep, atomList, scheme);
  }

  /**
   The dictionary `atomspace` builds: each record stored under its handle,
   the records assigned one after another so a later record with the same
   handle replaces an earlier one.
   */
  function HandleIndex(records: seq<AtomRecord>): map<int, AtomRecord>
  {
    if records == [] then map[]
    else
      var last := records[|records| - 1];
      HandleIndex(records[..|records| - 1])[last.handle := last]
  }

  /** Some record of the list carries handle `h`. */
  ghost predicate HasHandle(records: seq<AtomRecord>, h: int)
  {
    exists i :: 0 <= i < |records| && records[i].handle == h
  }

  /** Record i is the last record of the list with its handle. */
  ghost predicate IsLastWithHandle(records: seq<AtomRecord>, i: int)
  {
    0 <= i < |records| &&
    forall j :: i < j < |records| ==> records[j].handle != records[i].handle
  }

  /** Handle `h` is a key of the index exactly when some record carries it. */
  lemma {:induction false} HandleIndexKeys(records: seq<AtomRecord>, h: int)
    ensures h in HandleIndex(records) <==> HasHandle(records, h)
  {
    if records != [] {
      var n := |records| - 1;
      var init := records[..n];
      HandleIndexKeys(init, h);
      if h == records[n].handle {
        assert records[n].handle == h;
      } else {
        if HasHandle(records, h) {
          var i :| 0 <= i < |records| && records[i].handle == h;
          assert init[i].handle == h;
        }
        if HasHandle(init, h) {
          var i :| 0 <= i < |init| && init[i].handle == h;
          assert records[i].handle == h;
        }
      }
    }
  }

  /**
   A key of the index maps to the LAST record of the list with that handle:
   a later duplicate overwrites an earlier one.
   */
  lemma {:induction false} HandleIndexLastWins(records: seq<AtomRecord>, h: int)
    requires h in HandleIndex(records)
    ensures exists i :: IsLastWithHandle(records, i) && records[i] == HandleIndex(records)[h] && records[i].handle == h
  {
    var n := |records| - 1;
    var init := records[..n];
    if h == records[n].handle {
      assert IsLastWithHandle(records, n);
    } else {
      HandleIndexLastWins(init, h);
      var i :| IsLastWithHandle(init, i) && init[i] == HandleIndex(init)[h] && init[i].handle == h;
      assert records[i] == init[i];
      assert IsLastWithHandle(records, i);
    }
  }

  /** With distinct handles, nothing is overwritten: the index has one entry per record. */
  lemma {:induction false} HandleIndexSizeDistinct(records: seq<AtomRecord>)
    requires forall i, j :: 0 <= i < j < |records| ==> records[i].handle != records[j].handle
    ensures |HandleIndex(records)| == |records|
  {
    if records != [] {
      var n := |records| - 1;
      var init := records[..n];
      HandleIndexSizeDistinct(init);
      HandleIndexKeys(init, records[n].handle);
      assert forall i :: 0 <= i < |init| ==> init[i].handle != records[n].handle;
      assert !HasHandle(init, records[n].handle);
    }
  }

  /**
   `atomspace`: fill a dictionary from the fetched atom list, one
   assignment `result[atom['handle']] = atom` per record, in list order.
   The HTTP fetch is left out: the list is the parameter.
   */
  method Atomspace(records: seq<AtomRecord>) returns (result: map<int, AtomRecord>)
    ensures result == HandleIndex(records)
    ensures forall h :: h in result <==> HasHandle(records, h)
    ensures forall h :: h in result ==>
      exists i :: IsLastWithHandle(records, i) && records[i] == result[h] && records[i].handle == h
  {
    result := map[];
    var k := 0;
    while k < |records|
      invariant 0 <= k <= |records|
      invariant result == HandleIndex(records[..k])
    {
      assert records[..k + 1][..k] == records[..k];
      result := result[records[k].handle := records[k]];
      k := k + 1;
    }
    assert records[..k] == records;
    forall h
      ensures h in result <==> HasHandle(records, h)
      ensures h in result ==>
        exists i :: IsLastWithHandle(records, i) && records[i] == result[h] && records[i].handle == h
    {
      HandleIndexKeys(records, h);
      if h in result {
        HandleIndexLastWins(records, h);
      }
    }
  }
}
