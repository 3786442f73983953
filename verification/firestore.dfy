/**
  Saving a batch of scraped permits into the `permits` collection: every
  permit is tagged with the batch id and a creation time, its document id
  is `county_permitnumber` with spaces turned into underscores, and the
  writes go into one batch, so equal ids end as one document holding the
  later permit. A permit without `county` or `permit_number` raises before
  the commit; the exception is caught and nothing is written.
 */
module PermitStore {
  import opened Common

  /**
    A permit dictionary, with the four keys the save reads or writes held
    apart from the rest (`others` never holds those four keys); a key
    that is absent is `None`.
   */
  datatype Record = Record(
    county: Option<string>,
    permitNumber: Option<string>,
    batchId: Option<string>,
    createdAt: Option<string>,
    others: map<string, string>)

  /** The `permits` collection: document id to document. */
  type Store = map<string, Record>

  /**
    What the call leaves behind: the caller's permits as mutated by the
    loop (only those it reached), the collection, and whether the batch
    was committed.
   */
  datatype SaveResult = SaveResult(tagged: seq<Record>, store: Store, committed: bool)

  function ReplaceSpaces(s: string): (r: string)
    ensures |r| == |s|
    ensures ' ' !in r
    ensures forall i :: 0 <= i < |s| && s[i] != ' ' ==> r[i] == s[i]
    ensures forall i :: 0 <= i < |s| && s[i] == ' ' ==> r[i] == '_'
  {
    if s == [] then [] else [if s[0] == ' ' then '_' else s[0]] + ReplaceSpaces(s[1..])
  }

  /** The document id of a permit of `county` numbered `number`. */
  function DocId(county: string, number: string): (id: string)
    ensures |id| == |county| + 1 + |number|
    ensures ' ' !in id
  {
    ReplaceSpaces(county + "_" + number)
  }

  /**
    The id is the county, an underscore and the number, each with spaces
    turned into underscores; it holds no space.
   */
  lemma {:induction false} DocIdShape(county: string, number: string)
    ensures var id := DocId(county, number);
            && ' ' !in id
            && |id| == |county| + 1 + |number|
            && id[|county|] == '_'
            && id[..|county|] == ReplaceSpaces(county)
            && id[|county| + 1..] == ReplaceSpaces(number)
  {
    var c, n := ReplaceSpaces(county), ReplaceSpaces(number);
    DocIdParts(county, number);
    assert (c + "_" + n)[..|county|] == c;
    assert (c + "_" + n)[|county| + 1..] == n;
  }

  lemma {:induction false} DocIdParts(county: string, number: string)
    ensures DocId(county, number) == ReplaceSpaces(county) + "_" + ReplaceSpaces(number)
  {
    var rest := "_" + number;
    assert county + "_" + number == county + rest;
    ReplaceSpacesSplits(county, rest);
    ReplaceSpacesSplits("_", number);
    assert "_"[1..] == [];
    assert ReplaceSpaces("_") == "_";
    assert ReplaceSpaces(rest) == "_" + ReplaceSpaces(number);
  }

  lemma {:induction false} ReplaceSpacesSplits(a: string, b: string)
    ensures ReplaceSpaces(a + b) == ReplaceSpaces(a) + ReplaceSpaces(b)
  {
    if a == [] {
      assert a + b == b;
    } else {
      assert (a + b)[0] == a[0];
      assert (a + b)[1..] == a[1..] + b;
      ReplaceSpacesSplits(a[1..], b);
    }
  }

  predicate HasKeys(p: Record)
  {
    p.county.Some? && p.permitNumber.Some?
  }

  /** The id a permit is stored under; `None` where reading a key raises. */
  function PermitDocId(p: Record): (id: Option<string>)
    ensures id.Some? <==> HasKeys(p)
  {
    if HasKeys(p) then Some(DocId(p.county.value, p.permitNumber.value)) else None
  }

  /** The two fields the loop sets on every permit it reaches, before reading its keys. */
  function Tag(p: Record, batchId: string, createdAt: string): (t: Record)
    ensures t.batchId == Some(batchId) && t.createdAt == Some(createdAt)
    ensures t.county == p.county && t.permitNumber == p.permitNumber && t.others == p.others
  {
    p.(batchId := Some(batchId), createdAt := Some(createdAt))
  }

  /** The last position in `ps` whose permit is stored under `id`: the write that survives. */
  function LastIndex(ps: seq<Record>, id: string): (k: Option<nat>)
    ensures k.Some? ==> k.value < |ps| && PermitDocId(ps[k.value]) == Some(id)
    ensures k.Some? ==> forall j :: k.value < j < |ps| ==> PermitDocId(ps[j]) != Some(id)
    ensures k.None? ==> forall j :: 0 <= j < |ps| ==> PermitDocId(ps[j]) != Some(id)
  {
    if ps == [] then None
    else if PermitDocId(ps[|ps| - 1]) == Some(id) then Some(|ps| - 1)
    else LastIndex(ps[..|ps| - 1], id)
  }

  /** The first permit lacking `county` or `permit_number`, where the loop raises. */
  function FirstMissing(ps: seq<Record>): (k: Option<nat>)
    ensures k.Some? ==> k.value < |ps| && !HasKeys(ps[k.value]) && forall j :: 0 <= j < k.value ==> HasKeys(ps[j])
    ensures k.None? ==> forall j :: 0 <= j < |ps| ==> HasKeys(ps[j])
  {
    if ps == [] then None
    else if !HasKeys(ps[0]) then Some(0)
    else match FirstMissing(ps[1..])
      case None => None
      case Some(k) => Some(k + 1)
  }

  /** `writes` holds, per id, the tagged last permit of `ps[..i]` stored under it. */
  ghost predicate PendingWrites(writes: Store, ps: seq<Record>, i: nat, batchId: string, createdAt: string)
    requires i <= |ps|
  {
    && (forall id :: id in writes <==> LastIndex(ps[..i], id).Some?)
    && (forall id :: id in writes ==> writes[id] == Tag(ps[LastIndex(ps[..i], id).value], batchId, createdAt))
  }

  /** The collection after committing the writes for all of `ps` over `store`. */
  ghost predicate Committed(after: Store, store: Store, ps: seq<Record>, batchId: string, createdAt: string)
  {
    && (forall id :: id in after <==> id in store || LastIndex(ps, id).Some?)
    && (forall id :: id in after && LastIndex(ps, id).Some? ==>
          after[id] == Tag(ps[LastIndex(ps, id).value], batchId, createdAt))
    && (forall id :: id in after && LastIndex(ps, id).None? ==> after[id] == store[id])
  }

  /**
    `FirebaseBackend.save_permits`. `commitSucceeds` stands for the outcome
    of `batch.commit()`, a call into the database client.
   */
  method SavePermits(permits: seq<Record>, batchId: string, createdAt: string, commitSucceeds: bool, store: Store)
    returns (r: SaveResult)
    ensures |r.tagged| <= |permits|
    ensures forall i :: 0 <= i < |r.tagged| ==> r.tagged[i] == Tag(permits[i], batchId, createdAt)
    ensures FirstMissing(permits).None? ==> |r.tagged| == |permits|
    ensures FirstMissing(permits).Some? ==> |r.tagged| == FirstMissing(permits).value + 1
    ensures r.committed <==> commitSucceeds && FirstMissing(permits).None?
    ensures !r.committed ==> r.store == store
    ensures r.committed ==> Committed(r.store, store, permits, batchId, createdAt)
  {
    var tagged, writes, raised := StageWrites(permits, batchId, createdAt);
    if raised || !commitSucceeds {
      return SaveResult(tagged, store, false);
    }
    CommitApplies(writes, store, permits, batchId, createdAt);
    r := SaveResult(tagged, store + writes, true);
  }

  /**
    The loop of `save_permits`: tag each permit and stage its write under
    its id, until a permit without `county` or `permit_number` raises.
   */
  method StageWrites(permits: seq<Record>, batchId: string, createdAt: string)
    returns (tagged: seq<Record>, writes: Store, raised: bool)
    ensures raised <==> FirstMissing(permits).Some?
    ensures |tagged| <= |permits|
    ensures forall i :: 0 <= i < |tagged| ==> tagged[i] == Tag(permits[i], batchId, createdAt)
    ensures !raised ==> |tagged| == |permits| && PendingWrites(writes, permits, |permits|, batchId, createdAt)
    ensures raised ==> |tagged| == FirstMissing(permits).value + 1
  {
    writes := map[];
    tagged := [];
    var i := 0;
    while i < |permits|
      invariant 0 <= i <= |permits|
      invariant |tagged| == i
      invariant forall k :: 0 <= k < i ==> tagged[k] == Tag(permits[k], batchId, createdAt)
      invariant forall k :: 0 <= k < i ==> HasKeys(permits[k])
      invariant PendingWrites(writes, permits, i, batchId, createdAt)
    {
      var p := Tag(permits[i], batchId, createdAt);
      tagged := tagged + [p];
      if !HasKeys(permits[i]) {
        FirstMissingAt(permits, i);
        return tagged, writes, true;
      }
      var id := PermitDocId(permits[i]).value;
      PendingWritesStep(writes, permits, i, batchId, createdAt);
      writes := writes[id := p];
      i := i + 1;
    }
    assert FirstMissing(permits).None?;
    raised := false;
  }

  lemma {:induction false} FirstMissingAt(ps: seq<Record>, i: nat)
    requires i < |ps| && !HasKeys(ps[i])
    requires forall j :: 0 <= j < i ==> HasKeys(ps[j])
    ensures FirstMissing(ps) == Some(i)
  {
    var k := FirstMissing(ps);
    assert k.Some?;
  }

  lemma {:induction false} PendingWritesStep(writes: Store, ps: seq<Record>, i: nat, batchId: string, createdAt: string)
    requires i < |ps| && HasKeys(ps[i])
    requires PendingWrites(writes, ps, i, batchId, createdAt)
    ensures PendingWrites(writes[PermitDocId(ps[i]).value := Tag(ps[i], batchId, createdAt)], ps, i + 1, batchId, createdAt)
  {
    var added := PermitDocId(ps[i]).value;
    var after := writes[added := Tag(ps[i], batchId, createdAt)];
    forall id
      ensures id in after <==> LastIndex(ps[..i + 1], id).Some?
    {
      LastIndexStep(ps, i, id);
    }
    forall id | id in after
      ensures after[id] == Tag(ps[LastIndex(ps[..i + 1], id).value], batchId, createdAt)
    {
      LastIndexStep(ps, i, id);
    }
  }

  lemma {:induction false} CommitApplies(writes: Store, store: Store, ps: seq<Record>, batchId: string, createdAt: string)
    requires PendingWrites(writes, ps, |ps|, batchId, createdAt)
    ensures Committed(store + writes, store, ps, batchId, createdAt)
  {
    assert ps[..|ps|] == ps;
  }

  /** Extending the prefix by one permit: that permit's id now points at it, the others keep theirs. */
  lemma {:induction false} LastIndexStep(permits: seq<Record>, i: nat, id: string)
    requires i < |permits|
    ensures LastIndex(permits[..i + 1], id) ==
              if PermitDocId(permits[i]) == Some(id) then Some(i) else LastIndex(permits[..i], id)
  {
    assert permits[..i + 1][..i] == permits[..i];
  }

  /**
    After a commit every permit of the batch is stored under its id, the
    document there carries the batch id, and it is the tagged copy of the
    last permit of the batch with that id: of two permits sharing an id,
    the later one is kept.
   */
  lemma {:induction false} CommittedKeepsLastWriter(after: Store, store: Store, ps: seq<Record>, batchId: string, createdAt: string)
    requires FirstMissing(ps).None?
    requires Committed(after, store, ps, batchId, createdAt)
    ensures forall i :: 0 <= i < |ps| ==>
              && PermitDocId(ps[i]).Some?
              && PermitDocId(ps[i]).value in after
              && after[PermitDocId(ps[i]).value].batchId == Some(batchId)
    ensures forall i, j ::
              (&& 0 <= i < j < |ps| && PermitDocId(ps[i]) == PermitDocId(ps[j])
               && (forall k :: j < k < |ps| ==> PermitDocId(ps[k]) != PermitDocId(ps[j]))) ==>
              after[PermitDocId(ps[j]).value] == Tag(ps[j], batchId, createdAt)
  {
    forall i | 0 <= i < |ps|
      ensures PermitDocId(ps[i]).value in after && after[PermitDocId(ps[i]).value].batchId == Some(batchId)
    {
      assert LastIndex(ps, PermitDocId(ps[i]).value).Some?;
    }
    forall i, j | 0 <= i < j < |ps| && PermitDocId(ps[i]) == PermitDocId(ps[j])
              && (forall k :: j < k < |ps| ==> PermitDocId(ps[k]) != PermitDocId(ps[j]))
      ensures after[PermitDocId(ps[j]).value] == Tag(ps[j], batchId, createdAt)
    {
      var id := PermitDocId(ps[j]).value;
      LastIndexIsLast(ps, id, j);
    }
  }

  lemma {:induction false} LastIndexIsLast(ps: seq<Record>, id: string, j: nat)
    requires j < |ps| && PermitDocId(ps[j]) == Some(id)
    requires forall k :: j < k < |ps| ==> PermitDocId(ps[k]) != Some(id)
    ensures LastIndex(ps, id) == Some(j)
  {
    var k := LastIndex(ps, id);
    assert k.Some?;
  }

  /** The id depends on the county and the permit number only. */
  lemma {:induction false} DocIdIgnoresOtherFields(p: Record, q: Record)
    requires p.county == q.county && p.permitNumber == q.permitNumber
    ensures PermitDocId(p) == PermitDocId(q)
  {
  }

  /**
    Two different permits can share a document id: a space and an
    underscore read the same, and the separator is not escaped. The later
    of the two then overwrites the earlier.
   */
  lemma {:induction false} DocIdNotInjective()
    ensures DocId("A B", "1") == DocId("A_B", "1")
    ensures DocId("A", "B_1") == DocId("A_B", "1")
  {
    var joined := "A_B_1";
    assert "A_B" + "_" + "1" == joined;
    assert "A" + "_" + "B_1" == joined;
    assert "A B" + "_" + "1" == "A B_1";
    NoSpaceUnchanged(joined);
    var r := ReplaceSpaces("A B_1");
    assert "A B_1"[1] == ' ';
    assert forall i :: 0 <= i < 5 ==> r[i] == joined[i];
  }

  lemma {:induction false} NoSpaceUnchanged(s: string)
    requires ' ' !in s
    ensures ReplaceSpaces(s) == s
  {
    assert forall i :: 0 <= i < |s| ==> s[i] != ' ';
  }
}
