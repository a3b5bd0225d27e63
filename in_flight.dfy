/**
 * The in-flight list shared by every controller variant: the datagrams sent
 * and not yet acknowledged or judged lost, front = oldest, and the ordered
 * scan that removes an acknowledged datagram from it.
 */
module InFlight {

  /** One outstanding datagram: its sequence number and its send time (ms). */
  datatype Entry = Entry(seqNum: nat, sendTs: nat)

  /** Sequence numbers strictly increase from front to back. */
  predicate Sorted(l: seq<Entry>) {
    forall i, j :: 0 <= i < j < |l| ==> l[i].seqNum < l[j].seqNum
  }

  /** Some entry of `l` carries sequence number `key`. */
  predicate Contains(l: seq<Entry>, key: nat) {
    exists i :: 0 <= i < |l| && l[i].seqNum == key
  }

  /**
   * The list left by an acknowledgement of `key`: walking from the front, the
   * first entry numbered `key` is erased; the walk gives up at the first entry
   * numbered above `key`, since in a sorted list `key` cannot come later.
   */
  function Acked(l: seq<Entry>, key: nat): (r: seq<Entry>)
    ensures |r| == |l| || |r| + 1 == |l|
    ensures |r| == |l| ==> r == l
    ensures |r| < |l| ==> Contains(l, key)
    ensures forall e :: e in r ==> e in l
  {
    if l == [] then l
    else if l[0].seqNum == key then l[1..]
    else if l[0].seqNum > key then l
    else [l[0]] + Acked(l[1..], key)
  }

  /**
   * The scan loop itself: walk an iterator from the front, erase the match
   * and stop, or stop at a larger sequence number, or run off the end.
   * `found` tells whether an entry was erased.
   */
  method Scan(l: seq<Entry>, key: nat) returns (r: seq<Entry>, found: bool)
    ensures r == Acked(l, key)
    ensures found <==> |r| < |l|
  {
    var i := 0;
    r, found := l, false;
    while i < |l|
      invariant 0 <= i <= |l|
      invariant Acked(l, key) == l[..i] + Acked(l[i..], key)
    {
      if l[i].seqNum == key {
        r, found := l[..i] + l[i + 1..], true;
        return;
      } else if l[i].seqNum > key {
        return;
      }
      assert l[i..][1..] == l[i + 1..];
      assert l[..i + 1] == l[..i] + [l[i]];
      i := i + 1;
    }
    assert l[..i] == l;
  }

  /**
   * On any list, sorted or not, the scan either leaves the list as it is or
   * erases one entry numbered `key` in place, keeping the others in order.
   */
  lemma {:induction false} AckedErasesOne(l: seq<Entry>, key: nat) returns (i: nat)
    ensures Acked(l, key) == l
            || (i < |l| && l[i].seqNum == key && Acked(l, key) == l[..i] + l[i + 1..])
  {
    i := 0;
    if l != [] && l[0].seqNum < key {
      var tail := l[1..];
      var j := AckedErasesOne(tail, key);
      assert Acked(l, key) == [l[0]] + Acked(tail, key);
      if Acked(tail, key) != tail {
        i := j + 1;
        assert tail[j] == l[i];
        assert [l[0]] + tail[..j] == l[..i];
        assert tail[j + 1..] == l[i + 1..];
      } else {
        assert [l[0]] + tail == l;
      }
    }
  }

  /** An acknowledgement for a number not in the list changes nothing. */
  lemma {:induction false} AckedAbsent(l: seq<Entry>, key: nat)
    requires !Contains(l, key)
    ensures Acked(l, key) == l
  {
    if l != [] && l[0].seqNum < key {
      assert !Contains(l[1..], key) by {
        forall i | 0 <= i < |l[1..]| ensures l[1..][i].seqNum != key {
          assert l[1..][i] == l[i + 1];
        }
      }
      AckedAbsent(l[1..], key);
    }
  }

  /**
   * In a sorted list, the acknowledged entry, wherever it stands, is exactly
   * the one removed, and everything else stays in order.
   */
  lemma {:induction false} AckedPresent(l: seq<Entry>, key: nat, i: nat)
    requires Sorted(l)
    requires i < |l| && l[i].seqNum == key
    ensures Acked(l, key) == l[..i] + l[i + 1..]
  {
    if i > 0 {
      assert l[0].seqNum < key;
      AckedPresent(l[1..], key, i - 1);
      assert l[1..][..i - 1] == l[1..i];
      assert l[1..][i..] == l[i + 1..];
      assert [l[0]] + l[1..i] == l[..i];
    }
  }

  /** Removing an entry keeps a sorted list sorted. */
  lemma {:induction false} AckedSorted(l: seq<Entry>, key: nat)
    requires Sorted(l)
    ensures Sorted(Acked(l, key))
  {
    if l != [] && l[0].seqNum < key {
      AckedSorted(l[1..], key);
      var rest := Acked(l[1..], key);
      forall e | e in rest ensures l[0].seqNum < e.seqNum {
        assert e in l[1..];
      }
      assert Acked(l, key) == [l[0]] + rest;
    }
  }

  /** After the scan a sorted list no longer holds `key`. */
  lemma AckedRemovesKey(l: seq<Entry>, key: nat)
    requires Sorted(l)
    ensures !Contains(Acked(l, key), key)
  {
    if Contains(l, key) {
      var i :| 0 <= i < |l| && l[i].seqNum == key;
      AckedPresent(l, key, i);
      var r := l[..i] + l[i + 1..];
      forall j | 0 <= j < |r| ensures r[j].seqNum != key {
        if j < i { assert r[j] == l[j]; }
        else { assert r[j] == l[j + 1]; }
      }
    } else {
      AckedAbsent(l, key);
    }
  }

  /** A duplicate acknowledgement finds nothing more to remove. */
  lemma AckedIdempotent(l: seq<Entry>, key: nat)
    requires Sorted(l)
    ensures Acked(Acked(l, key), key) == Acked(l, key)
  {
    AckedRemovesKey(l, key);
    AckedAbsent(Acked(l, key), key);
  }

  /** Appending a datagram numbered above the back keeps the list sorted. */
  lemma AppendSorted(l: seq<Entry>, e: Entry)
    requires Sorted(l)
    requires l == [] || l[|l| - 1].seqNum < e.seqNum
    ensures Sorted(l + [e])
  {
  }

  /** A number absent from a list is absent from each of its suffixes. */
  lemma SuffixLacks(l: seq<Entry>, n: nat, key: nat)
    requires !Contains(l, key) && n <= |l|
    ensures !Contains(l[n..], key)
  {
    forall i | 0 <= i < |l[n..]| ensures l[n..][i].seqNum != key {
      assert l[n..][i] == l[n + i];
    }
  }

  /** Dropping a prefix keeps a sorted list sorted. */
  lemma DropSorted(l: seq<Entry>, n: nat)
    requires Sorted(l) && n <= |l|
    ensures Sorted(l[n..])
  {
  }
}
