/** The key-value repository: the whole list of expenses lives in one storage slot, under
    the key "EXPENSES_V1". `Add`, `Update` and `Remove` read the list, change it and write
    all of it back; `ReplaceAll` only writes. JSON text is modelled by the list it encodes,
    so serialising is the identity. */
module Repository {
  import opened ExpenseModel
  import opened Seqs

  /** What `getItem` can hand back for the slot. */
  datatype Slot =
    | Missing                  // null: nothing was ever written
    | Blank                    // the empty string
    | Json(xs: seq<Expense>)   // the serialisation of a list
    | Malformed                // text that `JSON.parse` rejects

  datatype StorageError = ParseError

  datatype Result<T> = Ok(value: T) | Err(error: StorageError)

  /** Whether an operation completed, or the error it stopped on. */
  datatype Outcome = Done | Failed(error: StorageError)

  /** Reading the slot: a missing value and the empty string both read as no expenses, a
      stored list reads as itself, and unparsable text is a parse error. */
  function Decode(slot: Slot): (r: Result<seq<Expense>>)
    ensures r.Err? <==> slot == Malformed
    ensures r.Ok? && !slot.Json? ==> r.value == []
  {
    match slot
    case Missing => Ok([])
    case Blank => Ok([])
    case Json(xs) => Ok(xs)
    case Malformed => Err(ParseError)
  }

  /** Serialising a list into the slot; reading it back gives the same list. */
  function Encode(xs: seq<Expense>): (slot: Slot)
    ensures Decode(slot) == Ok(xs)
  {
    Json(xs)
  }

  /** Reading a slot never written, or holding the empty string, gives the empty list and no
      error; reading back what was written gives exactly that list; only unparsable text fails. */
  lemma DecodeCases(slot: Slot, xs: seq<Expense>)
    ensures slot == Missing || slot == Blank ==> Decode(slot) == Ok([])
    ensures Decode(Encode(xs)) == Ok(xs)
    ensures Decode(slot).Err? <==> slot == Malformed
  {
  }

  /** The index search `update` runs: the position of the first record with the given id,
      or -1 when there is none. */
  function IndexOfId(xs: seq<Expense>, id: string): (i: int)
    ensures -1 <= i < |xs|
    ensures 0 <= i ==> xs[i].id == id && forall j :: 0 <= j < i ==> xs[j].id != id
    ensures i == -1 ==> forall j :: 0 <= j < |xs| ==> xs[j].id != id
    decreases |xs|
  {
    if xs == [] then -1
    else if xs[0].id == id then 0
    else
      var k := IndexOfId(xs[1..], id);
      if k == -1 then -1 else k + 1
  }

  /** The list with its first record of id `e.id` replaced by `e`; unchanged if there is none. */
  function ReplaceFirst(xs: seq<Expense>, e: Expense): (r: seq<Expense>)
    ensures |r| == |xs|
    ensures forall j :: 0 <= j < |xs| ==> r[j] == xs[j] || r[j] == e
    decreases |xs|
  {
    if xs == [] then []
    else if xs[0].id == e.id then [e] + xs[1..]
    else [xs[0]] + ReplaceFirst(xs[1..], e)
  }

  /** `update`'s in-place assignment of `exp` at the index the search found computes
      `ReplaceFirst`. */
  lemma {:induction false} ReplaceFirstAtIndex(xs: seq<Expense>, e: Expense)
    ensures ReplaceFirst(xs, e) == if IndexOfId(xs, e.id) >= 0 then xs[IndexOfId(xs, e.id) := e] else xs
    decreases |xs|
  {
    if xs != [] && xs[0].id != e.id {
      ReplaceFirstAtIndex(xs[1..], e);
      assert xs == [xs[0]] + xs[1..];
    }
  }

  /** `update` keeps the length and every record but the first one with the matching id,
      which becomes `e`. */
  lemma ReplaceFirstSpec(xs: seq<Expense>, e: Expense)
    ensures |ReplaceFirst(xs, e)| == |xs|
    ensures forall j :: 0 <= j < |xs| && j != IndexOfId(xs, e.id) ==> ReplaceFirst(xs, e)[j] == xs[j]
    ensures IndexOfId(xs, e.id) >= 0 ==> ReplaceFirst(xs, e)[IndexOfId(xs, e.id)] == e
  {
    ReplaceFirstAtIndex(xs, e);
  }

  /** `update` with an id no record has changes nothing. */
  lemma ReplaceFirstAbsent(xs: seq<Expense>, e: Expense)
    requires forall j :: 0 <= j < |xs| ==> xs[j].id != e.id
    ensures ReplaceFirst(xs, e) == xs
  {
    ReplaceFirstAtIndex(xs, e);
  }

  /** The list `remove` writes back: the records whose id differs from `id`. */
  function WithoutId(xs: seq<Expense>, id: string): (r: seq<Expense>)
    ensures |r| <= |xs|
    ensures forall j :: 0 <= j < |r| ==> r[j].id != id
  {
    Filter(xs, (e: Expense) => e.id != id)
  }

  /** `remove` keeps, in their original relative order, exactly the records whose id differs,
      each as many times as before. */
  lemma WithoutIdSpec(xs: seq<Expense>, id: string, x: Expense)
    ensures IsSubsequence(WithoutId(xs, id), xs)
    ensures multiset(WithoutId(xs, id))[x] == if x.id != id then multiset(xs)[x] else 0
    ensures forall j :: 0 <= j < |WithoutId(xs, id)| ==> WithoutId(xs, id)[j].id != id
  {
    FilterIsSubsequence(xs, (e: Expense) => e.id != id);
    FilterCount(xs, (e: Expense) => e.id != id, x);
  }

  /** `remove` of an id no record has changes nothing. */
  lemma WithoutIdAbsent(xs: seq<Expense>, id: string)
    requires forall j :: 0 <= j < |xs| ==> xs[j].id != id
    ensures WithoutId(xs, id) == xs
  {
    FilterKeepsAll(xs, (e: Expense) => e.id != id);
  }

  /** Removing the same id twice is removing it once. */
  lemma WithoutIdIdempotent(xs: seq<Expense>, id: string)
    ensures WithoutId(WithoutId(xs, id), id) == WithoutId(xs, id)
  {
    FilterIdempotent(xs, (e: Expense) => e.id != id);
  }

  class AsyncStorageRepository {
    /** The storage slot under the repository's one key. */
    var slot: Slot

    /** A repository over storage that already holds `initial` under its key. */
    constructor (initial: Slot)
      ensures slot == initial
    {
      slot := initial;
    }

    /** The list the slot currently decodes to, or the error reading it would raise. */
    function Stored(): Result<seq<Expense>>
      reads this
    {
      Decode(slot)
    }

    method Read() returns (r: Result<seq<Expense>>)
      ensures r == Stored()
    {
      r := Decode(slot);
    }

    method Write(xs: seq<Expense>)
      modifies this
      ensures slot == Encode(xs)
    {
      slot := Encode(xs);
    }

    method GetAll() returns (r: Result<seq<Expense>>)
      ensures r == Stored()
    {
      r := Read();
    }

    /** Appends `exp`. A read failure propagates and nothing is written. */
    method Add(exp: Expense) returns (o: Outcome)
      modifies this
      ensures old(Stored()).Err? ==> o == Failed(old(Stored()).error) && slot == old(slot)
      ensures old(Stored()).Ok? ==> o == Done && slot == Encode(old(Stored()).value + [exp])
    {
      var r := Read();
      if r.Err? {
        return Failed(r.error);
      }
      var xs := r.value + [exp];
      Write(xs);
      o := Done;
    }

    /** Replaces the first record with `exp.id` by `exp`. The list is written back even when
        no record matches, so a never-written slot then holds the empty list. */
    method Update(exp: Expense) returns (o: Outcome)
      modifies this
      ensures old(Stored()).Err? ==> o == Failed(old(Stored()).error) && slot == old(slot)
      ensures old(Stored()).Ok? ==> o == Done && slot == Encode(ReplaceFirst(old(Stored()).value, exp))
    {
      var r := Read();
      if r.Err? {
        return Failed(r.error);
      }
      var xs := r.value;
      var idx := IndexOfId(xs, exp.id);
      if idx >= 0 {
        xs := xs[idx := exp];
      }
      ReplaceFirstAtIndex(r.value, exp);
      Write(xs);
      o := Done;
    }

    /** Drops every record with the given id, writing the list back in any case. */
    method Remove(id: string) returns (o: Outcome)
      modifies this
      ensures old(Stored()).Err? ==> o == Failed(old(Stored()).error) && slot == old(slot)
      ensures old(Stored()).Ok? ==> o == Done && slot == Encode(WithoutId(old(Stored()).value, id))
    {
      var r := Read();
      if r.Err? {
        return Failed(r.error);
      }
      Write(WithoutId(r.value, id));
      o := Done;
    }

    /** Overwrites the slot with `exps`, whatever it held. */
    method ReplaceAll(exps: seq<Expense>)
      modifies this
      ensures slot == Encode(exps)
    {
      Write(exps);
    }
  }
}
