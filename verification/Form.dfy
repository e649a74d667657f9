/** Indexed lists among the parameters of an AWS Query request. */
module Form {
  import opened GoStrings

  type Values = map<string, seq<string>>

  /** url.Values.Get. */
  function Get(values: Values, key: string): string {
    if key in values && values[key] != [] then values[key][0] else ""
  }

  // ---------------------------------------------------------------- decimal printing

  function Digit(d: nat): char
    requires d < 10
  {
    '0' + d as char
  }

  function Itoa(n: nat): (s: string)
    ensures s != "" && forall i | 0 <= i < |s| :: '0' <= s[i] <= '9'
  {
    if n < 10 then [Digit(n)] else Itoa(n / 10) + [Digit(n % 10)]
  }

  function Atoi(s: string): nat
    requires forall i | 0 <= i < |s| :: '0' <= s[i] <= '9'
  {
    if s == "" then 0 else 10 * Atoi(s[..|s| - 1]) + (s[|s| - 1] - '0') as nat
  }

  lemma {:induction false} AtoiItoa(n: nat)
    ensures Atoi(Itoa(n)) == n
  {
    var s := Itoa(n);
    if n < 10 {
      assert s[..0] == "";
    } else {
      AtoiItoa(n / 10);
      assert s[..|s| - 1] == Itoa(n / 10);
    }
  }

  lemma ItoaInjective(m: nat, n: nat)
    requires Itoa(m) == Itoa(n)
    ensures m == n
  {
    AtoiItoa(m);
    AtoiItoa(n);
  }

  // ---------------------------------------------------------------- keys

  function MemberKey(prefix: string, i: nat): string {
    prefix + ".member." + Itoa(i)
  }

  function IndexKey(prefix: string, i: nat): string {
    prefix + "." + Itoa(i)
  }

  predicate KeyOf(key: string, prefix: string, i: nat) {
    key == MemberKey(prefix, i) || key == IndexKey(prefix, i)
  }

  lemma AppendInjective(a: string, b: string, c: string)
    requires a + b == a + c
    ensures b == c
  {
    assert b == (a + b)[|a|..] && c == (a + c)[|a|..];
  }

  lemma MixedKeysDiffer(prefix: string, i: nat, j: nat)
    ensures MemberKey(prefix, i) != IndexKey(prefix, j)
  {
    var at := |prefix| + 1;
    assert ".member."[1] == 'm';
    assert MemberKey(prefix, i)[at] == 'm';
    assert IndexKey(prefix, j)[at] == Itoa(j)[0];
  }

  /** A key names one index only. */
  lemma KeyNamesOneIndex(key: string, prefix: string, i: nat, j: nat)
    requires KeyOf(key, prefix, i) && KeyOf(key, prefix, j)
    ensures i == j
  {
    MixedKeysDiffer(prefix, i, j);
    MixedKeysDiffer(prefix, j, i);
    if key == MemberKey(prefix, i) {
      AppendInjective(prefix + ".member.", Itoa(i), Itoa(j));
    } else {
      AppendInjective(prefix + ".", Itoa(i), Itoa(j));
    }
    ItoaInjective(i, j);
  }

  // ---------------------------------------------------------------- MemberList

  /** The value at an index, in the member shape first. */
  function At(values: Values, prefix: string, i: nat): string {
    var v := TrimSpace(Get(values, MemberKey(prefix, i)));
    if v != "" then v else TrimSpace(Get(values, IndexKey(prefix, i)))
  }

  function Slots(values: Values, prefix: string): nat -> string {
    (i: nat) => At(values, prefix, i)
  }

  predicate AllAt(at: nat -> string, out: seq<string>) {
    forall i | 0 <= i < |out| :: out[i] == at(i + 1) && out[i] != ""
  }

  /** The values from index 1 up to the first blank one. */
  predicate UpToBlank(at: nat -> string, out: seq<string>) {
    AllAt(at, out) && at(|out| + 1) == ""
  }

  /** Blank means blank in both key shapes. */
  predicate IsMemberList(values: Values, prefix: string, out: seq<string>) {
    UpToBlank(Slots(values, prefix), out)
  }

  lemma AllAtSnoc(at: nat -> string, out: seq<string>, v: string)
    requires AllAt(at, out) && v == at(|out| + 1) && v != ""
    ensures AllAt(at, out + [v])
  {
  }

  lemma NotBlankBelow(at: nat -> string, out: seq<string>, i: nat)
    requires AllAt(at, out) && i < |out|
    ensures at(i + 1) != ""
  {
    assert out[i] != "";
  }

  lemma UpToBlankUnique(at: nat -> string, a: seq<string>, b: seq<string>)
    requires UpToBlank(at, a) && UpToBlank(at, b)
    ensures a == b
  {
    if |a| < |b| { NotBlankBelow(at, b, |a|); }
    if |b| < |a| { NotBlankBelow(at, a, |b|); }
  }

  /** The list is determined by the parameters. */
  lemma MemberListUnique(values: Values, prefix: string, a: seq<string>, b: seq<string>)
    requires IsMemberList(values, prefix, a) && IsMemberList(values, prefix, b)
    ensures a == b
  {
    UpToBlankUnique(Slots(values, prefix), a, b);
  }

  /** The key that gives the value at an index. */
  function Source(values: Values, prefix: string, i: nat): string {
    if TrimSpace(Get(values, MemberKey(prefix, i))) != "" then MemberKey(prefix, i) else IndexKey(prefix, i)
  }

  lemma SourceIsKey(values: Values, prefix: string, i: nat)
    requires At(values, prefix, i) != ""
    ensures Source(values, prefix, i) in values && KeyOf(Source(values, prefix, i), prefix, i)
  {
    assert TrimSpace("") == "";
  }

  /** Keys of the indices below a bound. */
  ghost predicate KeysBelow(used: set<string>, prefix: string, i: nat) {
    forall key | key in used :: exists j: nat | j < i :: KeyOf(key, prefix, j)
  }

  lemma UseKey(used: set<string>, keys: set<string>, prefix: string, i: nat, key: string)
    requires used <= keys && KeysBelow(used, prefix, i) && KeyOf(key, prefix, i) && key in keys
    ensures key !in used && |used| < |keys| && KeysBelow(used + {key}, prefix, i + 1)
  {
    if key in used {
      var j: nat :| j < i && KeyOf(key, prefix, j);
      KeyNamesOneIndex(key, prefix, i, j);
    }
    assert |keys| == |keys - used| + |used| && key in keys - used;
    forall k | k in used + {key} ensures exists j: nat | j < i + 1 :: KeyOf(k, prefix, j) {
      if k in used {
        var j: nat :| j < i && KeyOf(k, prefix, j);
      }
    }
  }

  /** The loop has no bound of its own: each round uses up a key of the map. */
  method MemberList(values: Values, prefix: string) returns (out: seq<string>)
    ensures IsMemberList(values, prefix, out)
  {
    out := [];
    var i := 1;
    ghost var used: set<string> := {};
    ghost var at := Slots(values, prefix);
    while true
      invariant i == |out| + 1
      invariant AllAt(at, out)
      invariant used <= values.Keys && KeysBelow(used, prefix, i)
      decreases |values.Keys| - |used|
    {
      var v := TrimSpace(Get(values, MemberKey(prefix, i)));
      if v == "" {
        v := TrimSpace(Get(values, IndexKey(prefix, i)));
      }
      assert v == at(i);
      if v == "" {
        break;
      }
      SourceIsKey(values, prefix, i);
      UseKey(used, values.Keys, prefix, i, Source(values, prefix, i));
      AllAtSnoc(at, out, v);
      used := used + {Source(values, prefix, i)};
      out := out + [v];
      i := i + 1;
    }
  }

  // ---------------------------------------------------------------- the encoding

  function KeyAt(prefix: string, member: nat -> bool, i: nat): string {
    if member(i) then MemberKey(prefix, i) else IndexKey(prefix, i)
  }

  /** How a client writes a list: each value under one of the two keys of its index. */
  function Encode(prefix: string, vs: seq<string>, member: nat -> bool): Values {
    if vs == [] then map[]
    else
      var n := |vs| - 1;
      Encode(prefix, vs[..n], member)[KeyAt(prefix, member, n + 1) := [vs[n]]]
  }

  /** What the encoding holds under a key of an index. */
  lemma {:induction false} EncodedAt(prefix: string, vs: seq<string>, member: nat -> bool, i: nat, key: string)
    requires KeyOf(key, prefix, i)
    ensures key in Encode(prefix, vs, member) <==> key == KeyAt(prefix, member, i) && 1 <= i <= |vs|
    ensures key in Encode(prefix, vs, member) ==> Encode(prefix, vs, member)[key] == [vs[i - 1]]
  {
    if vs != [] {
      var n := |vs| - 1;
      EncodedAt(prefix, vs[..n], member, i, key);
      KeyAtIndex(prefix, member, i, key, n + 1);
    }
  }

  lemma KeyAtIndex(prefix: string, member: nat -> bool, i: nat, key: string, n: nat)
    requires KeyOf(key, prefix, i)
    ensures key == KeyAt(prefix, member, n) <==> n == i && key == KeyAt(prefix, member, i)
  {
    if key == KeyAt(prefix, member, n) {
      KeyNamesOneIndex(key, prefix, i, n);
    }
  }

  predicate NonBlank(vs: seq<string>) {
    forall v | v in vs :: v != "" && Trimmed(v)
  }

  /** The value under the member key of an index. */
  function MemberValues(values: Values, prefix: string): nat -> string {
    (i: nat) => TrimSpace(Get(values, MemberKey(prefix, i)))
  }

  /** What a list shows at an index when its encoding is laid over parameters that hold own under the index's
      member key. */
  function Shown(vs: seq<string>, member: nat -> bool, own: nat -> string, i: nat): string
    requires i < |vs|
  {
    if member(i + 1) || own(i + 1) == "" then vs[i] else own(i + 1)
  }

  lemma GetLaid(others: Values, m: Values, key: string)
    ensures Get(others + m, key) == Get(if key in m then m else others, key)
  {
  }

  lemma Beyond(prefix: string, vs: seq<string>, member: nat -> bool, others: Values, i: nat)
    requires i > |vs|
    ensures At(others + Encode(prefix, vs, member), prefix, i) == At(others, prefix, i)
  {
    var m := Encode(prefix, vs, member);
    var a, b := MemberKey(prefix, i), IndexKey(prefix, i);
    EncodedAt(prefix, vs, member, i, a);
    EncodedAt(prefix, vs, member, i, b);
    GetLaid(others, m, a);
    GetLaid(others, m, b);
  }

  lemma DecodedAt(prefix: string, vs: seq<string>, member: nat -> bool, others: Values, i: nat)
    requires NonBlank(vs) && i < |vs|
    ensures At(others + Encode(prefix, vs, member), prefix, i + 1)
         == Shown(vs, member, MemberValues(others, prefix), i)
  {
    var m := Encode(prefix, vs, member);
    var a, b := MemberKey(prefix, i + 1), IndexKey(prefix, i + 1);
    EncodedAt(prefix, vs, member, i + 1, a);
    EncodedAt(prefix, vs, member, i + 1, b);
    MixedKeysDiffer(prefix, i + 1, i + 1);
    GetLaid(others, m, a);
    GetLaid(others, m, b);
    assert vs[i] in vs;
    ShownAt(others + m, prefix, i + 1, vs[i], member(i + 1), Get(others, a));
  }

  lemma ShownAt(values: Values, prefix: string, i: nat, v: string, member: bool, own: string)
    requires v != "" && Trimmed(v)
    requires Get(values, MemberKey(prefix, i)) == if member then v else own
    requires !member ==> Get(values, IndexKey(prefix, i)) == v
    ensures At(values, prefix, i) == if member || TrimSpace(own) == "" then v else TrimSpace(own)
  {
    TrimmedIsFixed(v);
  }

  /** The parameters say nothing else: under the member key of an index written in the shorter shape they hold a
      blank or the value itself. */
  predicate Undisturbed(vs: seq<string>, member: nat -> bool, own: nat -> string) {
    forall i: nat | i < |vs| && !member(i + 1) :: own(i + 1) == "" || own(i + 1) == vs[i]
  }

  /** Main result: a list of trimmed, non-blank values laid over other parameters is read back, whichever shape each
      index has, exactly when those parameters say nothing else at its indices and nothing at the next one. */
  lemma MemberListDecodes(prefix: string, vs: seq<string>, member: nat -> bool, others: Values)
    requires NonBlank(vs)
    ensures IsMemberList(others + Encode(prefix, vs, member), prefix, vs) <==>
              && Undisturbed(vs, member, MemberValues(others, prefix))
              && At(others, prefix, |vs| + 1) == ""
  {
    var at := Slots(others + Encode(prefix, vs, member), prefix);
    forall i: nat | i < |vs| ensures at(i + 1) == Shown(vs, member, MemberValues(others, prefix), i) {
      DecodedAt(prefix, vs, member, others, i);
    }
    Beyond(prefix, vs, member, others, |vs| + 1);
    ReadBackIff(at, vs, member, MemberValues(others, prefix));
  }

  lemma ReadBackIff(at: nat -> string, vs: seq<string>, member: nat -> bool, own: nat -> string)
    requires forall v | v in vs :: v != ""
    requires forall i: nat | i < |vs| :: at(i + 1) == Shown(vs, member, own, i)
    ensures UpToBlank(at, vs) <==> Undisturbed(vs, member, own) && at(|vs| + 1) == ""
  {
    forall i: nat | i < |vs| ensures at(i + 1) == Shown(vs, member, own, i) && vs[i] != "" {
      assert vs[i] in vs;
    }
  }
}
