/**
 The lock as stored: `owner|expiry` under one local-storage key, and the stretches of
 `withCrossTabRefreshLock` between two awaits as methods on an attempt.
 */
module RefreshLockStorage {
  import opened Prelude
  import opened CrossTabLock
  import Decimal

  /** Owner ids are a clock reading, a dash and base-36 digits: never the separator. */
  predicate ValidOwner(owner: string) {
    '|' !in owner
  }

  function Encode(owner: string, expiresAt: nat): string {
    owner + "|" + Decimal.Print(expiresAt)
  }

  predicate StartsWith(s: string, prefix: string) {
    prefix <= s
  }

  function LastIndexOf(s: string, c: char): (i: int)
    ensures -1 <= i < |s|
    ensures i >= 0 ==> s[i] == c
    ensures forall j :: i < j < |s| ==> s[j] != c
  {
    if s == [] then -1
    else if s[|s| - 1] == c then |s| - 1
    else LastIndexOf(s[..|s| - 1], c)
  }

  /** The owner and expiry of a stored text; `None` when the key is absent or not a lease. */
  function Decode(item: Option<string>): Cell {
    if item.None? then Empty
    else
      var separator := LastIndexOf(item.value, '|');
      var expiresAt := Decimal.Parse(item.value[separator + 1..]);
      if separator >= 0 && expiresAt.Some? then Held(item.value[..separator], expiresAt.value) else Empty
  }

  lemma DecodeEncode(owner: string, expiresAt: nat)
    ensures Decode(Some(Encode(owner, expiresAt))) == Held(owner, expiresAt)
  {
    var s := Encode(owner, expiresAt);
    var i := LastIndexOf(s, '|');
    Decimal.PrintIsNumeral(expiresAt);
    assert s[|owner|] == '|';
    assert forall j :: |owner| < j < |s| ==> s[j] == Decimal.Print(expiresAt)[j - |owner| - 1];
    assert i == |owner|;
    assert s[i + 1..] == Decimal.Print(expiresAt);
    assert s[..i] == owner;
  }

  /** The prefix test the client uses tells two owners apart, even when one id begins the other. */
  lemma PrefixIdentifiesOwner(owner: string, other: string, expiresAt: nat)
    requires ValidOwner(owner) && ValidOwner(other)
    ensures StartsWith(Encode(other, expiresAt), owner + "|") <==> owner == other
  {
    var s := Encode(other, expiresAt);
    assert s[..|other| + 1] == other + "|";
    assert forall j :: 0 <= j < |other| ==> s[j] == other[j] && s[j] in other;
    if StartsWith(s, owner + "|") {
      assert s[|owner|] == (owner + "|")[|owner|];
      assert forall j :: 0 <= j < |owner| ==> s[j] == (owner + "|")[j] == owner[j] && s[j] in owner;
      assert s[|owner|] == '|' && s[|other|] == '|';
    }
  }

  /** A text that some tab wrote. */
  ghost predicate Written(text: string) {
    exists owner, expiresAt :: ValidOwner(owner) && text == Encode(owner, expiresAt)
  }

  /** It splits into an owner and a numeral. */
  lemma WrittenTextSplits(text: string)
    requires Written(text)
    ensures
      var separator := LastIndexOf(text, '|');
      && separator >= 0
      && Decimal.Parse(text[separator + 1..]).Some?
      && Decode(Some(text)) == Held(text[..separator], Decimal.Parse(text[separator + 1..]).value)
  {
    var owner, expiresAt :| ValidOwner(owner) && text == Encode(owner, expiresAt);
    DecodeEncode(owner, expiresAt);
  }

  class SharedStorage {
    var item: Option<string>

    /** Only this client writes the key. */
    ghost predicate Valid()
      reads this
    {
      item.Some? ==> Written(item.value)
    }

    ghost function Cell(): Cell
      reads this
    {
      Decode(item)
    }

    constructor ()
      ensures Valid() && Cell() == Empty
    {
      item := None;
    }
  }

  class Attempt {
    const owner: string
    const storage: SharedStorage
    var phase: Phase

    ghost predicate Valid()
      reads this, storage
    {
      ValidOwner(owner) && storage.Valid()
    }

    constructor (owner: string, storage: SharedStorage, now: nat)
      requires ValidOwner(owner) && storage.Valid()
      ensures Valid() && this.owner == owner && this.storage == storage && phase == Polling(now)
    {
      this.owner := owner;
      this.storage := storage;
      this.phase := Polling(now);
    }

    method OwnsLock() returns (owns: bool)
      requires Valid()
      ensures owns <==> OwnedBy(storage.Cell(), owner)
    {
      owns := storage.item.Some? && StartsWith(storage.item.value, owner + "|");
      if storage.item.Some? {
        ghost var other, expiresAt :| ValidOwner(other) && storage.item.value == Encode(other, expiresAt);
        DecodeEncode(other, expiresAt);
        PrefixIdentifiesOwner(owner, other, expiresAt);
      }
    }

    /** The numeral after the last separator of the stored text, if there is one. */
    method StoredExpiry() returns (expiresAt: Option<nat>)
      requires Valid()
      ensures expiresAt == match storage.Cell() case Empty => None case Held(_, at) => Some(at)
    {
      if storage.item.None? || storage.item.value == "" {
        return None;
      }
      var current := storage.item.value;
      WrittenTextSplits(current);
      var separator := LastIndexOf(current, '|');
      return Decimal.Parse(current[separator + 1..]);
    }

    method Claim(now: nat)
      requires Valid()
      modifies storage
      ensures Valid() && storage.Cell() == Held(owner, now + LEASE_MS)
    {
      var claim := Encode(owner, now + LEASE_MS);
      assert Written(claim);
      DecodeEncode(owner, now + LEASE_MS);
      storage.item := Some(claim);
    }

    /** From the top of the loop to the next await. */
    method Poll(now: nat)
      requires Valid()
      modifies this`phase, storage
      ensures Valid()
      ensures (storage.Cell(), phase) == PollStep(old(storage.Cell()), owner, now)
      ensures
        var cell := old(storage.Cell());
        if cell.Held? && now < cell.expiresAt then storage.Cell() == cell && phase == Polling(now + 40)
        else storage.Cell() == Held(owner, now + 15000) && phase == Claimed(now)
    {
      var expiresAt := StoredExpiry();
      if expiresAt.Some? && expiresAt.value > now {
        phase := Polling(now + RETRY_MS);
        return;
      }
      Claim(now);
      phase := Claimed(now);
    }

    /** After the zero delay: the lock counts as acquired only if the key is still this owner's. */
    method Confirm(now: nat)
      requires Valid() && phase.Claimed?
      modifies this`phase
      ensures Valid() && storage.Cell() == old(storage.Cell())
      ensures phase == ConfirmStep(storage.Cell(), owner, old(phase.setAt), now)
      ensures
        var cell := storage.Cell();
        phase == if cell.Held? && cell.owner == owner then Confirmed(old(phase).setAt, now) else Polling(now + 40)
    {
      var acquired := OwnsLock();
      phase := if acquired then Confirmed(phase.setAt, now) else Polling(now + RETRY_MS);
    }

    /** The `finally` block. */
    method Release()
      requires Valid()
      modifies this`phase, storage
      ensures Valid() && phase == Gone
      ensures storage.Cell() == ReleaseStep(old(storage.Cell()), owner)
      ensures
        var cell := old(storage.Cell());
        storage.Cell() == if cell.Held? && cell.owner == owner then Empty else cell
    {
      var owns := OwnsLock();
      if owns {
        storage.item := None;
      }
      phase := Gone;
    }
  }
}
