/** The fingerprint of a container's bind mounts: sorted, joined by newlines and digested. */
module BindsHash {
  import opened GoStrings

  /** The order of Go strings. */
  predicate Leq(a: string, b: string) {
    if a == [] then true
    else if b == [] then false
    else a[0] < b[0] || (a[0] == b[0] && Leq(a[1..], b[1..]))
  }

  lemma LeqTotal(a: string, b: string)
    ensures Leq(a, b) || Leq(b, a)
    ensures Leq(a, b) && Leq(b, a) ==> a == b
  {
    if a != [] && b != [] && a[0] == b[0] {
      LeqTotal(a[1..], b[1..]);
      assert a == [a[0]] + a[1..] && b == [b[0]] + b[1..];
    }
  }

  lemma {:induction false} LeqTransitive(a: string, b: string, c: string)
    requires Leq(a, b) && Leq(b, c)
    ensures Leq(a, c)
  {
    if a != [] && a[0] == b[0] == c[0] {
      LeqTransitive(a[1..], b[1..], c[1..]);
    }
  }

  ghost predicate Sorted(s: seq<string>) {
    forall i, j | 0 <= i < j < |s| :: Leq(s[i], s[j])
  }

  function Insert(x: string, s: seq<string>): (r: seq<string>)
    ensures multiset(r) == multiset(s) + multiset{x}
  {
    if s == [] then [x]
    else if Leq(x, s[0]) then [x] + s
    else
      assert s == [s[0]] + s[1..];
      [s[0]] + Insert(x, s[1..])
  }

  /** sort.Strings. */
  function Sort(s: seq<string>): (r: seq<string>)
    ensures multiset(r) == multiset(s)
  {
    if s == [] then []
    else
      assert s == [s[0]] + s[1..];
      Insert(s[0], Sort(s[1..]))
  }

  lemma HeadLeast(s: seq<string>, x: string)
    requires Sorted(s) && x in s
    ensures Leq(s[0], x)
  {
    LeqTotal(x, x);
  }

  lemma {:induction false} InsertSorted(x: string, s: seq<string>)
    requires Sorted(s)
    ensures Sorted(Insert(x, s))
  {
    if s != [] {
      LeqTotal(x, s[0]);
      if Leq(x, s[0]) {
        forall i | 0 <= i < |s| ensures Leq(x, s[i]) {
          HeadLeast(s, s[i]);
          LeqTransitive(x, s[0], s[i]);
        }
      } else {
        InsertSorted(x, s[1..]);
        var r := Insert(x, s[1..]);
        forall i | 0 <= i < |r| ensures Leq(s[0], r[i]) {
          assert r[i] in multiset(r);
          assert r[i] in multiset(s[1..]) + multiset{x};
        }
      }
    }
  }

  lemma {:induction false} SortSorted(s: seq<string>)
    ensures Sorted(Sort(s))
  {
    if s != [] {
      SortSorted(s[1..]);
      InsertSorted(s[0], Sort(s[1..]));
    }
  }

  /** A multiset has one sorted listing, so any correct sort computes Sort. */
  lemma {:induction false} SortedUnique(a: seq<string>, b: seq<string>)
    requires Sorted(a) && Sorted(b) && multiset(a) == multiset(b)
    ensures a == b
  {
    if a == [] {
      assert |multiset(b)| == 0;
    } else {
      assert |multiset(a)| == |multiset(b)|;
      SameHead(a, b);
      TailMultiset(a);
      TailMultiset(b);
      SortedUnique(a[1..], b[1..]);
      assert a == [a[0]] + a[1..] && b == [b[0]] + b[1..];
    }
  }

  lemma SameHead(a: seq<string>, b: seq<string>)
    requires Sorted(a) && Sorted(b) && multiset(a) == multiset(b) && a != [] && b != []
    ensures a[0] == b[0]
  {
    assert a[0] in multiset(b) && b[0] in multiset(a);
    HeadLeast(b, a[0]);
    HeadLeast(a, b[0]);
    LeqTotal(a[0], b[0]);
  }

  lemma TailMultiset(a: seq<string>)
    requires a != []
    ensures multiset(a[1..]) == multiset(a) - multiset{a[0]}
  {
    assert a == [a[0]] + a[1..];
  }

  /** The digest distinguishes texts and never spells the fingerprint of no binds or a missing label. */
  ghost predicate CollisionFree(digest: string -> string) {
    && (forall a: string, b: string :: digest(a) == digest(b) ==> a == b)
    && (forall a: string :: digest(a) != "none" && digest(a) != "")
  }

  function Fingerprint(digest: string -> string, binds: seq<string>): string {
    if binds == [] then "none" else digest(Join(Sort(binds), '\n'))
  }

  /** The fingerprint tells bind lists without newlines apart exactly up to their order. */
  lemma FingerprintIff(digest: string -> string, a: seq<string>, b: seq<string>)
    requires CollisionFree(digest) && FreeOf(a, '\n') && FreeOf(b, '\n')
    ensures Fingerprint(digest, a) == Fingerprint(digest, b) <==> multiset(a) == multiset(b)
  {
    assert |multiset(a)| == |a| && |multiset(b)| == |b|;
    if multiset(a) == multiset(b) {
      SortSorted(a);
      SortSorted(b);
      SortedUnique(Sort(a), Sort(b));
    }
    if a != [] && b != [] && Fingerprint(digest, a) == Fingerprint(digest, b) {
      SortFreeOf(a);
      SortFreeOf(b);
      SplitJoin(Sort(a), '\n');
      SplitJoin(Sort(b), '\n');
    }
  }

  lemma SortFreeOf(s: seq<string>)
    requires FreeOf(s, '\n')
    ensures FreeOf(Sort(s), '\n') && (s != [] ==> Sort(s) != [])
  {
    forall p | p in Sort(s) ensures '\n' !in p {
      assert p in multiset(Sort(s));
    }
    assert s != [] ==> |multiset(Sort(s))| == |s|;
  }

  // ---------------------------------------------------------------- collisions

  ghost predicate Collide(digest: string -> string, a: seq<string>, b: seq<string>) {
    Fingerprint(digest, a) == Fingerprint(digest, b) && multiset(a) != multiset(b)
  }

  lemma SortFixed(s: seq<string>)
    requires Sorted(s)
    ensures Sort(s) == s
  {
    SortSorted(s);
    SortedUnique(Sort(s), s);
  }

  lemma {:induction false} LeqLonger(a: string, b: string, c: string)
    requires Leq(a, b)
    ensures Leq(a, b + c)
  {
    if a != [] {
      assert (b + c)[0] == b[0] && (b + c)[1..] == b[1..] + c;
      if a[0] == b[0] { LeqLonger(a[1..], b[1..], c); }
    }
  }

  /** Main result: a list of binds shares its fingerprint with a different list without newlines exactly when it
      has a newline itself and the lines of its joined form stand in order. */
  lemma CollidesWithPlainIff(digest: string -> string, a: seq<string>)
    requires CollisionFree(digest) && a != []
    ensures (exists b :: FreeOf(b, '\n') && Collide(digest, a, b)) <==>
              !FreeOf(a, '\n') && Sorted(Split(Join(Sort(a), '\n'), '\n'))
  {
    var text := Join(Sort(a), '\n');
    var lines := Split(text, '\n');
    JoinSplit(text, '\n');
    if !FreeOf(a, '\n') && Sorted(lines) {
      SortFixed(lines);
      assert multiset(lines) != multiset(a) by {
        var x :| x in a && '\n' in x;
        assert x in multiset(a) && x !in multiset(lines);
      }
      assert Collide(digest, a, lines);
    }
    if b :| FreeOf(b, '\n') && Collide(digest, a, b) {
      if FreeOf(a, '\n') { FingerprintIff(digest, a, b); }
      SortFreeOf(b);
      assert b != [];
      SplitJoin(Sort(b), '\n');
      SortSorted(b);
    }
  }

  /** A newline that splits a text into two that stand in order. */
  ghost predicate CutInOrder(t: string, i: nat) {
    i < |t| && t[i] == '\n' && Leq(t[..i], t[i + 1..])
  }

  /** Main result: a list of binds shares its fingerprint with some different list exactly when it has two binds
      or more, which one bind of several lines can stand for, or one bind that a newline cuts in order. */
  lemma CollidesIff(digest: string -> string, a: seq<string>)
    requires CollisionFree(digest)
    ensures (exists b :: Collide(digest, a, b)) <==> |a| >= 2 || (|a| == 1 && exists i: nat :: CutInOrder(a[0], i))
  {
    if |a| >= 2 {
      var b := [Join(Sort(a), '\n')];
      SortFixed(b);
      assert |multiset(a)| == |a| && |multiset(b)| == 1;
      assert Collide(digest, a, b);
    } else if |a| == 1 {
      SortFixed(a);
      assert a == [a[0]];
      if i: nat :| CutInOrder(a[0], i) {
        CutCollides(digest, a[0], i);
      }
      if b :| Collide(digest, a, b) {
        CollisionCuts(digest, a[0], b);
      }
    }
  }

  lemma CutCollides(digest: string -> string, t: string, i: nat)
    requires CutInOrder(t, i)
    ensures Collide(digest, [t], [t[..i], t[i + 1..]])
  {
    var b := [t[..i], t[i + 1..]];
    SortFixed([t]);
    SortFixed(b);
    assert b[1..] == [t[i + 1..]] && Join(b[1..], '\n') == t[i + 1..];
    assert t == t[..i] + ['\n'] + t[i + 1..];
    assert |multiset(b)| == 2 && |multiset([t])| == 1;
  }

  lemma CollisionCuts(digest: string -> string, t: string, b: seq<string>)
    requires CollisionFree(digest) && Collide(digest, [t], b)
    ensures exists i: nat :: CutInOrder(t, i)
  {
    var s := Sort(b);
    SortFixed([t]);
    SortSorted(b);
    assert b != [] && Join(s, '\n') == t;
    assert |multiset(s)| == |s| && |multiset(b)| == |b|;
    assert |s| == 1 ==> s == [t];
    JoinCut(s);
  }

  lemma JoinCut(s: seq<string>)
    requires Sorted(s) && |s| >= 2
    ensures CutInOrder(Join(s, '\n'), |s[0]|)
  {
    var rest := Join(s[1..], '\n');
    if |s| == 2 {
      assert rest == s[1];
    } else {
      var more := Join(s[1..][1..], '\n');
      assert rest == s[1] + (['\n'] + more);
      LeqLonger(s[0], s[1], ['\n'] + more);
    }
    var t := s[0] + ['\n'] + rest;
    assert t[..|s[0]|] == s[0] && t[|s[0]| + 1..] == rest;
  }

  /** An instance: one bind of two lines and two binds. */
  lemma NewlineCollides(digest: string -> string)
    ensures Fingerprint(digest, ["a\nb"]) == Fingerprint(digest, ["a", "b"])
    ensures multiset(["a\nb"]) != multiset(["a", "b"])
  {
    var t := "a\nb";
    assert t[..1] == "a" && t[2..] == "b";
    CutCollides(digest, t, 1);
  }
}
