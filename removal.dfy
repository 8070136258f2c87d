/** Deferred removal: the end-of-frame drain of the removal queue, which
    deletes each queued body with `splice(indexOf(body), 1)`.
    Array.prototype.indexOf answers -1 for a body that is no longer in the
    list, and splice(-1, 1) then deletes the LAST body of the list. */
module Removal {
  import opened Entities

  /** No object occurs twice in the list. */
  predicate UniqueIds(s: seq<Body>)
  {
    forall a, b :: 0 <= a < b < |s| ==> s[a].id != s[b].id
  }

  predicate HasId(s: seq<Body>, id: BodyId)
  {
    exists k :: 0 <= k < |s| && s[k].id == id
  }

  /** Array.prototype.indexOf by object identity: the first position that holds
      the object, or -1 when it is absent. */
  function IndexOf(s: seq<Body>, id: BodyId): (k: int)
    ensures -1 <= k < |s|
    ensures 0 <= k ==> s[k].id == id && forall m :: 0 <= m < k ==> s[m].id != id
    ensures k == -1 ==> forall m :: 0 <= m < |s| ==> s[m].id != id
  {
    if s == [] then -1
    else if s[0].id == id then 0
    else
      var k := IndexOf(s[1..], id);
      if k == -1 then -1 else k + 1
  }

  /** Where Array.prototype.splice starts: a negative start counts back from
      the end (clamped at 0), a start past the end is clamped to the length. */
  function SpliceStart(len: nat, start: int): (p: nat)
    ensures p <= len
    ensures 0 <= start <= len ==> p == start
    ensures -(len as int) <= start < 0 ==> p == len + start
  {
    if start < 0 then (if len + start < 0 then 0 else len + start)
    else if start > len then len
    else start
  }

  /** `s.splice(start, 1)`: the list after deleting one element at the splice start. */
  function SpliceOne<T>(s: seq<T>, start: int): (r: seq<T>)
    ensures -|s| <= start < |s| ==> |r| == |s| - 1
    ensures 0 <= start < |s| ==> r == s[..start] + s[start + 1..]
    ensures start == -1 && s != [] ==> r == s[..|s| - 1]
    ensures forall x :: x in r ==> x in s
  {
    var p := SpliceStart(|s|, start);
    if p < |s| then s[..p] + s[p + 1..] else s
  }

  /** emptyRemoveQueue, one queued body after another. Every entry deletes
      exactly one body while any are left, whether or not the queued body is
      still there; nothing is added. */
  function Drain(s: seq<Body>, queue: seq<BodyId>): (r: seq<Body>)
    ensures |r| == if |queue| <= |s| then |s| - |queue| else 0
    ensures forall b :: b in r ==> b in s
    decreases |queue|
  {
    if queue == [] then s
    else Drain(SpliceOne(s, IndexOf(s, queue[0])), queue[1..])
  }

  /** The reference for a well-behaved drain: the list with the bodies of the
      given ids filtered out, the others kept in order. */
  function Without(s: seq<Body>, gone: set<BodyId>): (r: seq<Body>)
    ensures |r| <= |s|
  {
    if s == [] then []
    else (if s[0].id in gone then [] else [s[0]]) + Without(s[1..], gone)
  }

  /** The filter keeps exactly the bodies whose ids are not gone. */
  lemma {:induction false} WithoutMembers(s: seq<Body>, gone: set<BodyId>)
    ensures forall b :: b in Without(s, gone) <==> b in s && b.id !in gone
  {
    if s != [] {
      WithoutMembers(s[1..], gone);
      assert s == [s[0]] + s[1..];
    }
  }

  lemma {:induction false} WithoutKeepsAll(s: seq<Body>, gone: set<BodyId>)
    requires forall k :: 0 <= k < |s| ==> s[k].id !in gone
    ensures Without(s, gone) == s
  {
    if s != [] {
      WithoutKeepsAll(s[1..], gone);
    }
  }

  lemma {:induction false} WithoutConcat(a: seq<Body>, b: seq<Body>, gone: set<BodyId>)
    ensures Without(a + b, gone) == Without(a, gone) + Without(b, gone)
  {
    if a == [] {
      assert a + b == b;
    } else {
      assert (a + b)[1..] == a[1..] + b;
      WithoutConcat(a[1..], b, gone);
    }
  }

  lemma {:induction false} WithoutTwice(s: seq<Body>, g1: set<BodyId>, g2: set<BodyId>)
    ensures Without(Without(s, g1), g2) == Without(s, g1 + g2)
  {
    if s != [] {
      var head := if s[0].id in g1 then [] else [s[0]];
      WithoutConcat(head, Without(s[1..], g1), g2);
      WithoutTwice(s[1..], g1, g2);
      if s[0].id !in g1 {
        assert head[1..] == [];
      }
    }
  }

  /** Filtering the same identities out twice is filtering them out once. */
  lemma {:induction false} WithoutIdempotent(s: seq<Body>, gone: set<BodyId>)
    ensures Without(Without(s, gone), gone) == Without(s, gone)
  {
    WithoutTwice(s, gone, gone);
    assert gone + gone == gone;
  }

  /** Deleting the one body with a given id from a list without duplicates is filtering it out. */
  lemma {:induction false} DeleteAtIsWithout(s: seq<Body>, k: nat)
    requires UniqueIds(s) && k < |s|
    ensures s[..k] + s[k + 1..] == Without(s, {s[k].id})
  {
    var g := {s[k].id};
    var t := s[1..];
    assert UniqueIds(t) by {
      forall a, b | 0 <= a < b < |t| ensures t[a].id != t[b].id {
        assert t[a] == s[a + 1] && t[b] == s[b + 1];
      }
    }
    if k == 0 {
      forall m | 0 <= m < |t| ensures t[m].id !in g {
        assert t[m] == s[m + 1];
      }
      WithoutKeepsAll(t, g);
    } else {
      assert s[0].id != s[k].id;
      assert t[k - 1] == s[k];
      DeleteAtIsWithout(t, k - 1);
      assert s[..k] + s[k + 1..] == [s[0]] + (t[..k - 1] + t[k..]);
    }
  }

  lemma SpliceKeepsUnique(s: seq<Body>, start: int)
    requires UniqueIds(s)
    ensures UniqueIds(SpliceOne(s, start))
  {
    var p := SpliceStart(|s|, start);
    if p < |s| {
      var r := SpliceOne(s, start);
      assert r == s[..p] + s[p + 1..];
      forall a, b | 0 <= a < b < |r| ensures r[a].id != r[b].id {
        var a' := if a < p then a else a + 1;
        var b' := if b < p then b else b + 1;
        assert r[a] == s[a'] && r[b] == s[b'];
      }
    }
  }

  lemma {:induction false} DrainKeepsUnique(s: seq<Body>, queue: seq<BodyId>)
    requires UniqueIds(s)
    ensures UniqueIds(Drain(s, queue))
    decreases |queue|
  {
    if queue != [] {
      SpliceKeepsUnique(s, IndexOf(s, queue[0]));
      DrainKeepsUnique(SpliceOne(s, IndexOf(s, queue[0])), queue[1..]);
    }
  }

  /** The set of ids in a queue. */
  function Queued(queue: seq<BodyId>): set<BodyId>
  {
    if queue == [] then {} else {queue[0]} + Queued(queue[1..])
  }

  predicate NoRepeats(queue: seq<BodyId>)
  {
    forall a, b :: 0 <= a < b < |queue| ==> queue[a] != queue[b]
  }

  predicate AllPresent(s: seq<Body>, queue: seq<BodyId>)
  {
    forall i :: 0 <= i < |queue| ==> HasId(s, queue[i])
  }

  lemma StillPresent(s: seq<Body>, k: nat, id: BodyId)
    requires k < |s| && HasId(s, id) && id != s[k].id
    ensures HasId(s[..k] + s[k + 1..], id)
  {
    var r := s[..k] + s[k + 1..];
    var m :| 0 <= m < |s| && s[m].id == id;
    if m < k {
      assert r[m] == s[m];
    } else {
      assert r[m - 1] == s[m];
    }
  }

  /** When nothing is queued twice and every queued body is in the list, the
      drain deletes exactly the queued bodies and keeps the others in order. */
  lemma {:induction false} DrainIsWithout(s: seq<Body>, queue: seq<BodyId>)
    requires UniqueIds(s) && NoRepeats(queue) && AllPresent(s, queue)
    ensures Drain(s, queue) == Without(s, Queued(queue))
    decreases |queue|
  {
    if queue == [] {
      WithoutKeepsAll(s, {});
    } else {
      var q := queue[0];
      var rest := queue[1..];
      assert HasId(s, queue[0]);
      var k := IndexOf(s, q);
      var s' := SpliceOne(s, k);
      assert s' == s[..k] + s[k + 1..];
      DeleteAtIsWithout(s, k);
      SpliceKeepsUnique(s, k);
      forall i | 0 <= i < |rest| ensures HasId(s', rest[i]) {
        assert rest[i] == queue[i + 1];
        assert HasId(s, queue[i + 1]);
        StillPresent(s, k, rest[i]);
      }
      forall a, b | 0 <= a < b < |rest| ensures rest[a] != rest[b] {
        assert rest[a] == queue[a + 1] && rest[b] == queue[b + 1];
      }
      DrainIsWithout(s', rest);
      WithoutTwice(s, {q}, Queued(rest));
    }
  }

  /** Splicing a body out at its indexOf leaves no body with its id. */
  lemma SpliceRemoves(s: seq<Body>, q: BodyId)
    requires UniqueIds(s)
    ensures !HasId(SpliceOne(s, IndexOf(s, q)), q)
  {
    var k := IndexOf(s, q);
    var r := SpliceOne(s, k);
    if k >= 0 {
      DeleteAtIsWithout(s, k);
      WithoutMembers(s, {q});
    }
    forall m | 0 <= m < |r| ensures r[m].id != q {
      assert r[m] in r;
    }
  }

  /** The drain never brings a body back. */
  lemma AbsentStaysAbsent(s: seq<Body>, queue: seq<BodyId>, q: BodyId)
    requires !HasId(s, q)
    ensures !HasId(Drain(s, queue), q)
  {
    var r := Drain(s, queue);
    forall m | 0 <= m < |r| ensures r[m].id != q {
      assert r[m] in s;
    }
  }

  /** Whatever else it does, the drain leaves none of the queued bodies in the list. */
  lemma {:induction false} DrainRemovesQueued(s: seq<Body>, queue: seq<BodyId>)
    requires UniqueIds(s)
    ensures forall q :: q in queue ==> !HasId(Drain(s, queue), q)
    decreases |queue|
  {
    if queue != [] {
      var q := queue[0];
      var s' := SpliceOne(s, IndexOf(s, q));
      SpliceKeepsUnique(s, IndexOf(s, q));
      SpliceRemoves(s, q);
      DrainRemovesQueued(s', queue[1..]);
      AbsentStaysAbsent(s', queue[1..], q);
      assert Drain(s, queue) == Drain(s', queue[1..]);
      forall x | x in queue ensures !HasId(Drain(s, queue), x) {
        if x != q {
          assert x in queue[1..];
        }
      }
    }
  }

  /** A body that is no longer in the list costs the list its last body. */
  lemma AbsentDropsLast(s: seq<Body>, q: BodyId)
    requires !HasId(s, q) && s != []
    ensures Drain(s, [q]) == s[..|s| - 1]
  {
    assert IndexOf(s, q) == -1;
    assert [q][1..] == [];
  }

  /** Removal is not idempotent: a body queued twice is deleted once, and the
      second entry deletes the last body of what remains. */
  lemma DoubleQueueDropsLast(s: seq<Body>, q: BodyId)
    requires UniqueIds(s) && HasId(s, q)
    ensures var w := Without(s, {q});
            |w| == |s| - 1 && Drain(s, [q, q]) == if w == [] then [] else w[..|w| - 1]
  {
    var k := IndexOf(s, q);
    var s' := SpliceOne(s, k);
    DeleteAtIsWithout(s, k);
    WithoutMembers(s, {q});
    assert s' == Without(s, {q});
    assert !HasId(s', q);
    assert [q, q][1..] == [q];
    assert Drain(s, [q, q]) == Drain(s', [q]);
    if s' != [] {
      AbsentDropsLast(s', q);
    } else {
      assert IndexOf(s', q) == -1;
      assert [q][1..] == [];
    }
  }
}
