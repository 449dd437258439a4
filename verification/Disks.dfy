/** The order in which the drift check compares disks (sortDisks in
    pkg/proxmox/virtualmachine.go; used by pkg/proxmox/fetcher.go). */
module Disks {
  import opened Ordering

  datatype Disk = Disk(storage: string, size: int, device: string)

  predicate Before(a: Disk, b: Disk) {
    if a.storage == b.storage then Less(a.device, b.device) else Less(a.storage, b.storage)
  }

  predicate SameSlot(a: Disk, b: Disk) {
    a.storage == b.storage && a.device == b.device
  }

  lemma BeforeTransitive(a: Disk, b: Disk, c: Disk)
    requires !Before(b, a) && !Before(c, b)
    ensures !Before(c, a)
  {
    if Before(c, a) {
      if a.storage == b.storage && b.storage == c.storage {
        if b.device != c.device { LessConnected(b.device, c.device); LessTransitive(b.device, c.device, a.device); }
      } else if b.storage == c.storage {
      } else {
        LessConnected(b.storage, c.storage);
        if c.storage == a.storage {
        } else {
          LessTransitive(b.storage, c.storage, a.storage);
          LessIrreflexive(a.storage);
        }
      }
    }
  }

  lemma BeforeConnected(a: Disk, b: Disk)
    requires !SameSlot(a, b)
    ensures Before(a, b) || Before(b, a)
  {
    if a.storage == b.storage {
      LessConnected(a.device, b.device);
    } else {
      LessConnected(a.storage, b.storage);
    }
  }

  predicate IsSorted(s: seq<Disk>) {
    forall i, j :: 0 <= i < j < |s| ==> !Before(s[j], s[i])
  }

  /** `r` is one of the results that sorting `s` may have. */
  predicate SortOf(r: seq<Disk>, s: seq<Disk>) {
    IsSorted(r) && multiset(r) == multiset(s)
  }

  /** No two different disks are in the same slot of the same storage. */
  predicate SlotsDiffer(s: seq<Disk>) {
    forall x, y :: x in s && y in s && SameSlot(x, y) ==> x == y
  }

  /** Moves the disk at `i` down to its place among those before it. */
  method Insert(disks: array<Disk>, i: nat)
    requires i < disks.Length && IsSorted(disks[..i])
    modifies disks
    ensures IsSorted(disks[..i + 1]) && multiset(disks[..]) == multiset(old(disks[..]))
  {
    assert forall p, q :: 0 <= p < q < i ==> !Before(disks[..i][q], disks[..i][p]);
    var j := i;
    while j > 0 && Before(disks[j], disks[j - 1])
      invariant 0 <= j <= i
      invariant forall p, q :: 0 <= p < q <= i && q != j ==> !Before(disks[q], disks[p])
      invariant multiset(disks[..]) == multiset(old(disks[..]))
    {
      LessAsymmetric(disks[j], disks[j - 1]);
      disks[j], disks[j - 1] := disks[j - 1], disks[j];
      j := j - 1;
    }
    forall p | 0 <= p < j ensures !Before(disks[j], disks[p]) {
      if p < j - 1 { BeforeTransitive(disks[p], disks[j - 1], disks[j]); }
    }
  }

  /** By storage, and within one storage by device. */
  ghost predicate InPlace(a: Disk, b: Disk) {
    !Less(b.storage, a.storage) && (a.storage == b.storage ==> !Less(b.device, a.device))
  }

  /** Sorts in place. Which sorting algorithm is used makes no difference to the
      results below. */
  method SortDisks(disks: array<Disk>)
    modifies disks
    ensures SortOf(disks[..], old(disks[..]))
    ensures forall i, j :: 0 <= i < j < disks.Length ==> InPlace(disks[i], disks[j])
  {
    for i := 0 to disks.Length
      invariant IsSorted(disks[..i]) && multiset(disks[..]) == multiset(old(disks[..]))
    {
      Insert(disks, i);
    }
    assert disks[..disks.Length] == disks[..];
    forall i, j | 0 <= i < j < disks.Length ensures InPlace(disks[i], disks[j]) {
      assert !Before(disks[..][j], disks[..][i]);
      LessIrreflexive(disks[i].storage);
    }
  }

  lemma LessAsymmetric(a: Disk, b: Disk)
    requires Before(a, b)
    ensures !Before(b, a)
  {
    if a.storage == b.storage {
      if Less(b.device, a.device) { LessTransitive(a.device, b.device, a.device); LessIrreflexive(a.device); }
    } else if Less(b.storage, a.storage) {
      LessTransitive(a.storage, b.storage, a.storage);
      LessIrreflexive(a.storage);
    }
  }

  // ------------------------------------------------------------------- results

  lemma FirstIsLeast(r: seq<Disk>, x: Disk)
    requires IsSorted(r) && x in r
    ensures x == r[0] || !Before(x, r[0])
  {
    var i :| 0 <= i < |r| && r[i] == x;
  }

  lemma TailOf(s: seq<Disk>)
    requires s != []
    ensures multiset(s[1..]) == multiset(s) - multiset{s[0]} && s[0] in multiset(s)
    ensures SlotsDiffer(s) ==> SlotsDiffer(s[1..])
    ensures IsSorted(s) ==> IsSorted(s[1..])
  {
    assert s == [s[0]] + s[1..];
  }

  lemma SameFirst(r: seq<Disk>, q: seq<Disk>)
    requires r != [] && q != [] && IsSorted(r) && IsSorted(q) && multiset(r) == multiset(q) && SlotsDiffer(r)
    ensures r[0] == q[0]
  {
    TailOf(r);
    TailOf(q);
    assert r[0] in q && q[0] in r;
    FirstIsLeast(q, r[0]);
    FirstIsLeast(r, q[0]);
    if r[0] != q[0] {
      BeforeConnected(r[0], q[0]);
    }
  }

  /** Without shared slots the result of sorting does not depend on how it was done,
      nor on the order of the list. */
  lemma {:induction false} SortedIsUnique(r: seq<Disk>, q: seq<Disk>)
    requires IsSorted(r) && IsSorted(q) && multiset(r) == multiset(q) && SlotsDiffer(r)
    ensures r == q
  {
    assert |r| == |multiset(r)| == |multiset(q)| == |q|;
    if r != [] {
      SameFirst(r, q);
      TailOf(r);
      TailOf(q);
      SortedIsUnique(r[1..], q[1..]);
      assert r == [r[0]] + r[1..] && q == [q[0]] + q[1..];
    }
  }

  /** Two lists compare equal after sorting exactly when they hold the same disks. */
  lemma SameDisksExactly(a: seq<Disk>, b: seq<Disk>, r: seq<Disk>, q: seq<Disk>)
    requires SlotsDiffer(a) && SortOf(r, a) && SortOf(q, b)
    ensures r == q <==> multiset(a) == multiset(b)
  {
    if multiset(a) == multiset(b) {
      forall x, y | x in r && y in r && SameSlot(x, y) ensures x == y {
        assert x in multiset(a) && y in multiset(a);
      }
      SortedIsUnique(r, q);
    }
  }

  function Inserted(s: seq<Disk>, x: Disk): (r: seq<Disk>)
    ensures multiset(r) == multiset(s) + multiset{x}
  {
    if s == [] || Before(x, s[0]) then [x] + s
    else assert s == [s[0]] + s[1..]; [s[0]] + Inserted(s[1..], x)
  }

  lemma {:induction false} InsertedIsSorted(s: seq<Disk>, x: Disk)
    requires IsSorted(s)
    ensures IsSorted(Inserted(s, x))
  {
    if s != [] && !Before(x, s[0]) {
      InsertedIsSorted(s[1..], x);
      var t := Inserted(s[1..], x);
      forall j | 0 <= j < |t| ensures !Before(t[j], s[0]) {
        assert t[j] in multiset(t);
        assert t[j] == x || t[j] in s[1..];
      }
    } else if s != [] {
      LessAsymmetric(x, s[0]);
      forall j | 0 < j < |s| ensures !Before(s[j], x) {
        BeforeTransitive(x, s[0], s[j]);
      }
    }
  }

  lemma {:induction false} SortExists(s: seq<Disk>) returns (r: seq<Disk>)
    ensures SortOf(r, s)
  {
    if s == [] {
      r := [];
    } else {
      var t := SortExists(s[1..]);
      r := Inserted(t, s[0]);
      InsertedIsSorted(t, s[0]);
      assert s == [s[0]] + s[1..];
    }
  }

  /** Somewhere between two different disks of one slot, two different neighbours of
      that slot stand next to each other. */
  lemma {:induction false} Neighbours(r: seq<Disk>, i: nat, j: nat) returns (k: nat)
    requires IsSorted(r) && i < j < |r| && SameSlot(r[i], r[j]) && r[i] != r[j]
    ensures k + 1 < |r| && SameSlot(r[k], r[k + 1]) && r[k] != r[k + 1]
    decreases j - i
  {
    if j == i + 1 {
      return i;
    }
    if !SameSlot(r[i], r[j - 1]) {
      BeforeConnected(r[i], r[j - 1]);
    }
    if r[i] != r[j - 1] {
      k := Neighbours(r, i, j - 1);
    } else {
      k := j - 1;
    }
  }

  /** Neighbours of one slot may as well be the other way round. */
  lemma Swapped(r: seq<Disk>, k: nat) returns (q: seq<Disk>)
    requires IsSorted(r) && k + 1 < |r| && SameSlot(r[k], r[k + 1])
    ensures IsSorted(q) && multiset(q) == multiset(r) && (r[k] != r[k + 1] ==> q != r)
  {
    q := r[k := r[k + 1]][k + 1 := r[k]];
    LessIrreflexive(r[k].device);
    assert q[k] == r[k + 1];
  }

  lemma PlaceOf(r: seq<Disk>, s: seq<Disk>, x: Disk) returns (i: nat)
    requires multiset(r) == multiset(s) && x in s
    ensures i < |r| && r[i] == x
  {
    assert x in multiset(r);
    i :| i < |r| && r[i] == x;
  }

  lemma OtherResult(s: seq<Disk>, x: Disk, y: Disk) returns (r: seq<Disk>, q: seq<Disk>)
    requires x in s && y in s && SameSlot(x, y) && x != y
    ensures SortOf(r, s) && SortOf(q, s) && r != q
  {
    r := SortExists(s);
    var i := PlaceOf(r, s, x);
    var j := PlaceOf(r, s, y);
    var k;
    if i < j { k := Neighbours(r, i, j); } else { k := Neighbours(r, j, i); }
    q := Swapped(r, k);
  }

  /** The result is determined exactly when no two different disks share a slot. */
  lemma DeterminedExactly(s: seq<Disk>)
    ensures SlotsDiffer(s) <==> forall r, q :: SortOf(r, s) && SortOf(q, s) ==> r == q
  {
    if SlotsDiffer(s) {
      forall r, q | SortOf(r, s) && SortOf(q, s) ensures r == q {
        SameDisksExactly(s, s, r, q);
      }
    } else {
      var x, y :| x in s && y in s && SameSlot(x, y) && x != y;
      var r, q := OtherResult(s, x, y);
    }
  }
}
