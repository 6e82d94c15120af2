/** The canonical query string that signing compares: percent-encoded key=value pairs in order. */
module CanonicalQuery {

  type Byte = b: int | 0 <= b < 256 witness 0
  type Str = seq<Byte>

  const AMP: Byte := 38
  const EQ: Byte := 61
  const PERCENT: Byte := 37

  predicate Unreserved(c: Byte) {
    || 65 <= c <= 90 || 97 <= c <= 122 || 48 <= c <= 57
    || c == 95 || c == 45 || c == 126 || c == 46
  }

  predicate Plain(c: Byte, encodeSlash: bool) { Unreserved(c) || (c == 47 && !encodeSlash) }

  function HexDigit(n: int): Byte
    requires 0 <= n < 16
  {
    if n < 10 then 48 + n else 55 + n
  }

  function HexValue(c: Byte): int { if 48 <= c <= 57 then c - 48 else if 65 <= c <= 70 then c - 55 else 0 }

  function EncodeByte(c: Byte, encodeSlash: bool): Str {
    if Plain(c, encodeSlash) then [c] else [PERCENT, HexDigit(c / 16), HexDigit(c % 16)]
  }

  function Encode(s: Str, encodeSlash: bool): Str {
    if s == [] then [] else Encode(s[..|s| - 1], encodeSlash) + EncodeByte(s[|s| - 1], encodeSlash)
  }

  /** Percent-decoding, as section 2.1 of RFC 3986 defines it. */
  function Decode(t: Str): Str {
    if t == [] then []
    else if t[0] == PERCENT && |t| >= 3 then
      var c := 16 * HexValue(t[1]) + HexValue(t[2]);
      [if c < 256 then c else 0] + Decode(t[3..])
    else [t[0]] + Decode(t[1..])
  }

  lemma HexReads(n: int)
    requires 0 <= n < 16
    ensures HexValue(HexDigit(n)) == n
  {
  }

  lemma ByteDecodes(c: Byte, rest: Str, encodeSlash: bool)
    ensures Decode(EncodeByte(c, encodeSlash) + rest) == [c] + Decode(rest)
  {
    var t := EncodeByte(c, encodeSlash) + rest;
    HexReads(c / 16);
    HexReads(c % 16);
    if Plain(c, encodeSlash) {
      assert t[1..] == rest;
    } else {
      assert t[3..] == rest;
    }
  }

  lemma {:induction false} DecodeAppends(s: Str, rest: Str, encodeSlash: bool)
    ensures Decode(Encode(s, encodeSlash) + rest) == s + Decode(rest)
    decreases |s|
  {
    if s == [] {
      assert Encode(s, encodeSlash) + rest == rest;
    } else {
      var n, c := |s| - 1, s[|s| - 1];
      var init, code := Encode(s[..n], encodeSlash), EncodeByte(c, encodeSlash);
      assert Encode(s, encodeSlash) == init + code;
      hide Encode, Decode, EncodeByte;
      calc {
        Decode(Encode(s, encodeSlash) + rest);
        { assert init + code + rest == init + (code + rest); }
        Decode(init + (code + rest));
        { DecodeAppends(s[..n], code + rest, encodeSlash); }
        s[..n] + Decode(code + rest);
        { ByteDecodes(c, rest, encodeSlash); }
        s[..n] + ([c] + Decode(rest));
        { assert s == s[..n] + [c]; }
        s + Decode(rest);
      }
    }
  }

  /** Encoding loses nothing, at most triples the length, and emits neither separator. */
  lemma {:induction false} EncodeIsFaithful(s: Str, encodeSlash: bool)
    ensures Decode(Encode(s, encodeSlash)) == s
    ensures |Encode(s, encodeSlash)| <= 3 * |s|
    ensures AMP !in Encode(s, encodeSlash) && EQ !in Encode(s, encodeSlash)
  {
    DecodeAppends(s, [], encodeSlash);
    assert Encode(s, encodeSlash) + [] == Encode(s, encodeSlash);
    EncodeShape(s, encodeSlash);
  }

  lemma {:induction false} EncodeShape(s: Str, encodeSlash: bool)
    ensures |Encode(s, encodeSlash)| <= 3 * |s|
    ensures AMP !in Encode(s, encodeSlash) && EQ !in Encode(s, encodeSlash)
  {
    if s != [] { EncodeShape(s[..|s| - 1], encodeSlash); }
  }

  method WriteByteEncoded(builder: Str, c: Byte, encodeSlash: bool) returns (result: Str)
    ensures result == builder + EncodeByte(c, encodeSlash)
  {
    result := builder;
    if 65 <= c <= 90 || 97 <= c <= 122 || 48 <= c <= 57 || c == 95 || c == 45 || c == 126 || c == 46
      || (c == 47 && !encodeSlash)
    {
      result := result + [c];
      return;
    }
    result := result + [PERCENT];
    result := result + [HexDigit(c / 16)];
    result := result + [HexDigit(c % 16)];
  }

  lemma EncodeOneMore(s: Str, c: Byte, encodeSlash: bool)
    ensures Encode(s + [c], encodeSlash) == Encode(s, encodeSlash) + EncodeByte(c, encodeSlash)
  {
    assert (s + [c])[..|s|] == s;
  }

  /** The encoder's loop, appending to a builder. */
  method WriteEncoded(builder: Str, s: Str, encodeSlash: bool) returns (result: Str)
    ensures result == builder + Encode(s, encodeSlash)
  {
    result := builder;
    assert Encode(s[..0], encodeSlash) == [];
    hide Encode, EncodeByte;
    var i := 0;
    while i < |s|
      invariant 0 <= i <= |s| && result == builder + Encode(s[..i], encodeSlash)
    {
      EncodeOneMore(s[..i], s[i], encodeSlash);
      assert s[..i + 1] == s[..i] + [s[i]];
      ghost var done, more := Encode(s[..i], encodeSlash), EncodeByte(s[i], encodeSlash);
      result := WriteByteEncoded(result, s[i], encodeSlash);
      assert builder + done + more == builder + (done + more);
      i := i + 1;
    }
    assert s[..i] == s;
  }

  datatype Pair = Pair(key: Str, value: Str)

  function EncodePair(p: Pair): Str { Encode(p.key, true) + [EQ] + Encode(p.value, true) }

  function Join(pairs: seq<Pair>): Str {
    if pairs == [] then []
    else if |pairs| == 1 then EncodePair(pairs[0])
    else Join(pairs[..|pairs| - 1]) + [AMP] + EncodePair(pairs[|pairs| - 1])
  }

  /** The part of s before its first c, or all of it. */
  function Before(s: Str, c: Byte): (r: Str)
    ensures r <= s && c !in r && (|r| < |s| ==> s[|r|] == c)
  {
    if s == [] || s[0] == c then [] else [s[0]] + Before(s[1..], c)
  }

  /** The part of s after its last c, or all of it. */
  function After(s: Str, c: Byte): (r: Str)
    ensures |r| <= |s| && r == s[|s| - |r|..] && c !in r && (|r| < |s| ==> s[|s| - |r| - 1] == c)
  {
    if s == [] || s[|s| - 1] == c then [] else After(s[..|s| - 1], c) + [s[|s| - 1]]
  }

  /** Read a query string back: cut at the ampersands, then each piece at its equals sign. */
  function ReadPair(s: Str): Pair {
    var k := Before(s, EQ);
    Pair(Decode(k), if |k| < |s| then Decode(s[|k| + 1..]) else [])
  }

  function Read(s: Str): seq<Pair>
    decreases |s|
  {
    if s == [] then []
    else
      var last := After(s, AMP);
      if |last| < |s| then Read(s[..|s| - |last| - 1]) + [ReadPair(last)] else [ReadPair(last)]
  }

  lemma PairReadsBack(p: Pair)
    ensures ReadPair(EncodePair(p)) == p && AMP !in EncodePair(p) && EncodePair(p) != []
  {
    EncodeIsFaithful(p.key, true);
    EncodeIsFaithful(p.value, true);
    var k, s := Encode(p.key, true), EncodePair(p);
    assert s[|k|] == EQ && s[..|k|] == k && s[|k| + 1..] == Encode(p.value, true);
    BeforeIs(s, k, EQ);
  }

  lemma BeforeIs(s: Str, k: Str, c: Byte)
    requires k <= s && |k| < |s| && s[|k|] == c && c !in k
    ensures Before(s, c) == k
  {
    var r := Before(s, c);
    assert !(|r| < |k|) && !(|k| < |r|);
  }

  lemma AfterIs(s: Str, k: Str, c: Byte)
    requires |k| < |s| && s[|s| - |k|..] == k && s[|s| - |k| - 1] == c && c !in k
    ensures After(s, c) == k
  {
    var r := After(s, c);
    assert !(|r| < |k|) && !(|k| < |r|);
  }

  lemma AfterNone(s: Str, c: Byte)
    requires c !in s
    ensures After(s, c) == s
  {
    assert |After(s, c)| == |s|;
  }

  lemma ReadOne(e: Str)
    requires AMP !in e && e != []
    ensures Read(e) == [ReadPair(e)]
  {
    AfterNone(e, AMP);
  }

  lemma ReadMore(init: Str, e: Str)
    requires AMP !in e
    ensures Read(init + [AMP] + e) == Read(init) + [ReadPair(e)]
  {
    var s := init + [AMP] + e;
    assert s[|s| - |e|..] == e && s[|s| - |e| - 1] == AMP && s[..|s| - |e| - 1] == init;
    AfterIs(s, e, AMP);
  }

  /** Reading a joined list gives back exactly that list. */
  lemma {:induction false} JoinReadsBack(pairs: seq<Pair>)
    ensures Read(Join(pairs)) == pairs
  {
    if pairs == [] {
      assert Join(pairs) == [] && Read([]) == [];
    } else {
      var n := |pairs| - 1;
      var init, last := pairs[..n], pairs[n];
      assert pairs == init + [last];
      assert Join(pairs) == if n == 0 then EncodePair(last) else Join(init) + [AMP] + EncodePair(last);
      hide Join, Read, ReadPair, EncodePair;
      PairReadsBack(last);
      if n == 0 {
        ReadOne(EncodePair(last));
      } else {
        JoinReadsBack(init);
        ReadMore(Join(init), EncodePair(last));
      }
    }
  }

  /** Bytewise order of strings. */
  predicate LessEq(a: Str, b: Str) {
    a == [] || (b != [] && (a[0] < b[0] || (a[0] == b[0] && LessEq(a[1..], b[1..]))))
  }

  lemma LessEqTotal(a: Str, b: Str)
    ensures LessEq(a, b) || LessEq(b, a)
  {
  }

  lemma LessEqTransitive(a: Str, b: Str, c: Str)
    requires LessEq(a, b) && LessEq(b, c)
    ensures LessEq(a, c)
  {
  }

  lemma LessEqAntisymmetric(a: Str, b: Str)
    requires LessEq(a, b) && LessEq(b, a)
    ensures a == b
  {
    if a != [] && b != [] {
      LessEqAntisymmetric(a[1..], b[1..]);
      assert a == [a[0]] + a[1..] && b == [b[0]] + b[1..];
    }
  }

  predicate Ordered(ss: seq<Str>) {
    forall i, j :: 0 <= i < j < |ss| ==> LessEq(ss[i], ss[j])
  }

  /** Insert s into an ordered list. */
  method Insert(ss: seq<Str>, s: Str) returns (r: seq<Str>)
    requires Ordered(ss)
    ensures Ordered(r) && multiset(r) == multiset(ss) + multiset{s}
  {
    var i := |ss|;
    while i > 0 && !LessEq(ss[i - 1], s)
      invariant 0 <= i <= |ss|
      invariant forall k :: i <= k < |ss| ==> LessEq(s, ss[k])
    {
      LessEqTotal(ss[i - 1], s);
      i := i - 1;
    }
    forall k | 0 <= k < i ensures LessEq(ss[k], s) {
      if k < i - 1 { LessEqTransitive(ss[k], ss[i - 1], s); }
    }
    r := ss[..i] + [s] + ss[i..];
    InsertedInOrder(ss, i, s);
    hide Ordered;
    assert ss == ss[..i] + ss[i..];
  }

  lemma InsertedInOrder(ss: seq<Str>, i: nat, s: Str)
    requires i <= |ss| && Ordered(ss)
    requires forall k :: 0 <= k < i ==> LessEq(ss[k], s)
    requires forall k :: i <= k < |ss| ==> LessEq(s, ss[k])
    ensures Ordered(ss[..i] + [s] + ss[i..])
  {
    hide LessEq;
    var r := ss[..i] + [s] + ss[i..];
    forall a, b | 0 <= a < b < |r| ensures LessEq(r[a], r[b]) {
      assert r[a] == if a < i then ss[a] else if a == i then s else ss[a - 1];
      assert r[b] == if b < i then ss[b] else if b == i then s else ss[b - 1];
    }
  }

  method Sort(ss: seq<Str>) returns (r: seq<Str>)
    ensures Ordered(r) && multiset(r) == multiset(ss)
  {
    r := [];
    var i := 0;
    while i < |ss|
      invariant 0 <= i <= |ss| && Ordered(r) && multiset(r) == multiset(ss[..i])
    {
      assert ss[..i + 1] == ss[..i] + [ss[i]];
      r := Insert(r, ss[i]);
      i := i + 1;
    }
    assert ss[..i] == ss;
  }

  /** Pairs in order of key, then value. */
  predicate PairLessEq(p: Pair, q: Pair) {
    if p.key == q.key then LessEq(p.value, q.value) else LessEq(p.key, q.key)
  }

  predicate OrderedPairs(ps: seq<Pair>) {
    forall i, j :: 0 <= i < j < |ps| ==> PairLessEq(ps[i], ps[j])
  }

  lemma PairAntisymmetric(p: Pair, q: Pair)
    requires PairLessEq(p, q) && PairLessEq(q, p)
    ensures p == q
  {
    if p.key == q.key { LessEqAntisymmetric(p.value, q.value); } else { LessEqAntisymmetric(p.key, q.key); }
  }

  lemma SameLeast(ps: seq<Pair>, qs: seq<Pair>)
    requires OrderedPairs(ps) && OrderedPairs(qs) && multiset(ps) == multiset(qs) && ps != [] && qs != []
    ensures ps[0] == qs[0]
  {
    assert ps[0] in multiset(qs) && qs[0] in multiset(ps);
    var i :| 0 <= i < |ps| && ps[i] == qs[0];
    var j :| 0 <= j < |qs| && qs[j] == ps[0];
    hide PairLessEq;
    if i > 0 && j > 0 { PairAntisymmetric(ps[0], qs[0]); }
  }

  lemma Rest(ps: seq<Pair>)
    requires OrderedPairs(ps) && ps != []
    ensures OrderedPairs(ps[1..]) && multiset(ps[1..]) == multiset(ps) - multiset{ps[0]}
  {
    assert ps == [ps[0]] + ps[1..];
  }

  /** An ordered list is determined by what it contains. */
  lemma {:induction false} OrderedIsUnique(ps: seq<Pair>, qs: seq<Pair>)
    requires OrderedPairs(ps) && OrderedPairs(qs) && multiset(ps) == multiset(qs)
    ensures ps == qs
  {
    assert |ps| == |multiset(ps)| == |multiset(qs)| == |qs|;
    if ps != [] {
      SameLeast(ps, qs);
      Rest(ps);
      Rest(qs);
      hide OrderedPairs;
      OrderedIsUnique(ps[1..], qs[1..]);
      assert ps == [ps[0]] + ps[1..] && qs == [qs[0]] + qs[1..];
    }
  }

  /** A parsed query: each key once, with its values, in whatever order the map is walked. */
  type Query = seq<(Str, seq<Str>)>

  predicate KeysOnce(q: Query) {
    forall i, j :: 0 <= i < j < |q| ==> q[i].0 != q[j].0
  }

  /** The values under a key; none if it is missing. */
  function Values(q: Query, key: Str): seq<Str> {
    if q == [] then [] else if q[|q| - 1].0 == key then q[|q| - 1].1 else Values(q[..|q| - 1], key)
  }

  lemma {:induction false} ValuesAt(q: Query, i: nat)
    requires KeysOnce(q) && i < |q|
    ensures Values(q, q[i].0) == q[i].1
  {
    if i < |q| - 1 { ValuesAt(q[..|q| - 1], i); }
  }

  lemma {:induction false} ValuesMissing(q: Query, key: Str)
    requires forall i :: 0 <= i < |q| ==> q[i].0 != key
    ensures Values(q, key) == []
  {
    if q != [] { ValuesMissing(q[..|q| - 1], key); }
  }

  /** The pairs list each value of each key as often as the query does. */
  ghost predicate Carries(pairs: seq<Pair>, q: Query) {
    forall p: Pair :: multiset(pairs)[p] == multiset(Values(q, p.key))[p.value]
  }

  /** r is the query's canonical string. */
  ghost predicate IsCanonical(r: Str, q: Query) {
    exists pairs :: OrderedPairs(pairs) && Carries(pairs, q) && r == Join(pairs)
  }

  /** The two queries carry the same values per key, regardless of order. */
  ghost predicate SameValues(q: Query, q': Query) {
    forall key :: multiset(Values(q, key)) == multiset(Values(q', key))
  }

  /** Canonical strings are equal exactly when the queries carry the same values. */
  lemma CanonicalFormIsFaithful(q: Query, r: Str, q': Query, r': Str)
    requires IsCanonical(r, q) && IsCanonical(r', q')
    ensures r == r' <==> SameValues(q, q')
  {
    var ps :| OrderedPairs(ps) && Carries(ps, q) && r == Join(ps);
    var ps' :| OrderedPairs(ps') && Carries(ps', q') && r' == Join(ps');
    hide OrderedPairs, Join, Values, Carries, SameValues;
    if r == r' {
      JoinReadsBack(ps);
      JoinReadsBack(ps');
      SamePairs(ps, q, q');
    }
    if SameValues(q, q') {
      SameContents(ps, q, ps', q');
      OrderedIsUnique(ps, ps');
    }
  }

  lemma SamePairs(ps: seq<Pair>, q: Query, q': Query)
    requires Carries(ps, q) && Carries(ps, q')
    ensures SameValues(q, q')
  {
    hide Values;
    forall key ensures multiset(Values(q, key)) == multiset(Values(q', key)) {
      forall v: Str ensures multiset(Values(q, key))[v] == multiset(Values(q', key))[v] {
        assert multiset(ps)[Pair(key, v)] == multiset(Values(q, key))[v];
      }
    }
  }

  lemma SameContents(ps: seq<Pair>, q: Query, ps': seq<Pair>, q': Query)
    requires Carries(ps, q) && Carries(ps', q') && SameValues(q, q')
    ensures multiset(ps) == multiset(ps')
  {
    hide Values;
    forall p: Pair ensures multiset(ps)[p] == multiset(ps')[p] {
      assert multiset(Values(q, p.key)) == multiset(Values(q', p.key));
    }
  }

  /** The pairs written so far: all values of the first i keys, and the first j of the next key. */
  ghost predicate Written(pairs: seq<Pair>, q: Query, keys: seq<Str>, i: int, current: seq<Str>)
    requires 0 <= i <= |keys|
  {
    forall p: Pair :: multiset(pairs)[p] ==
      if p.key in keys[..i] then multiset(Values(q, p.key))[p.value]
      else if i < |keys| && p.key == keys[i] then multiset(current)[p.value]
      else 0
  }

  predicate Once(keys: seq<Str>) {
    forall i, j :: 0 <= i < j < |keys| ==> keys[i] != keys[j]
  }

  lemma WrittenOne(pairs: seq<Pair>, q: Query, keys: seq<Str>, i: int, current: seq<Str>, v: Str)
    requires 0 <= i < |keys| && Once(keys) && Written(pairs, q, keys, i, current)
    ensures Written(pairs + [Pair(keys[i], v)], q, keys, i, current + [v])
  {
    var pairs' := pairs + [Pair(keys[i], v)];
    assert keys[i] !in keys[..i];
    forall p: Pair ensures multiset(pairs')[p] == multiset(pairs)[p] + if p == Pair(keys[i], v) then 1 else 0 {}
  }

  lemma WrittenKey(pairs: seq<Pair>, q: Query, keys: seq<Str>, i: int, values: seq<Str>)
    requires 0 <= i < |keys| && Once(keys) && Written(pairs, q, keys, i, values)
    requires multiset(values) == multiset(Values(q, keys[i]))
    ensures Written(pairs, q, keys, i + 1, [])
  {
    assert keys[..i + 1] == keys[..i] + [keys[i]];
    assert i + 1 < |keys| ==> keys[i + 1] !in keys[..i + 1];
  }

  /** A pair at or beyond everything written keeps the list in order. */
  lemma OrderedOneMore(pairs: seq<Pair>, p: Pair)
    requires OrderedPairs(pairs) && forall k :: 0 <= k < |pairs| ==> PairLessEq(pairs[k], p)
    ensures OrderedPairs(pairs + [p])
  {
  }

  /** Every pair written has an earlier key, or the current key and a value among those done. */
  ghost predicate Behind(pairs: seq<Pair>, keys: seq<Str>, i: int, values: seq<Str>, j: int)
    requires 0 <= i <= |keys| && 0 <= j <= |values|
  {
    forall k :: 0 <= k < |pairs| ==>
      pairs[k].key in keys[..i] || (i < |keys| && pairs[k].key == keys[i] && pairs[k].value in values[..j])
  }

  lemma BehindIsBelow(pairs: seq<Pair>, keys: seq<Str>, i: int, values: seq<Str>, j: int)
    requires 0 <= i < |keys| && 0 <= j < |values| && Ordered(keys) && Once(keys) && Ordered(values)
    requires Behind(pairs, keys, i, values, j)
    ensures forall k :: 0 <= k < |pairs| ==> PairLessEq(pairs[k], Pair(keys[i], values[j]))
    ensures Behind(pairs + [Pair(keys[i], values[j])], keys, i, values, j + 1)
  {
    forall k | 0 <= k < |pairs| ensures PairLessEq(pairs[k], Pair(keys[i], values[j])) {
      if pairs[k].key in keys[..i] {
        var m :| 0 <= m < i && keys[m] == pairs[k].key;
      } else {
        var m :| 0 <= m < j && values[m] == pairs[k].value;
      }
    }
    assert values[j] in values[..j + 1];
  }

  lemma JoinOneMore(pairs: seq<Pair>, p: Pair)
    ensures Join(pairs + [p]) == if pairs == [] then EncodePair(p) else Join(pairs) + [AMP] + EncodePair(p)
  {
    assert (pairs + [p])[..|pairs|] == pairs;
  }

  /** Append one pair to the string built so far. */
  method WritePair(builder: Str, count: nat, key: Str, value: Str, ghost pairs: seq<Pair>) returns (result: Str)
    requires builder == Join(pairs) && count == |pairs|
    ensures result == Join(pairs + [Pair(key, value)])
  {
    hide Join, Encode;
    JoinOneMore(pairs, Pair(key, value));
    result := builder;
    if count > 0 { result := result + [AMP]; }
    result := WriteEncoded(result, key, true);
    result := result + [EQ];
    result := WriteEncoded(result, value, true);
    EmptyJoin();
    var start := if count > 0 then builder + [AMP] else [];
    assert start + Encode(key, true) + [EQ] + Encode(value, true) == start + (Encode(key, true) + [EQ] + Encode(value, true));
  }

  lemma EmptyJoin()
    ensures Join([]) == []
  {
  }

  /** Append all values of the i-th key. */
  method WriteKey(builder: Str, count: nat, values: seq<Str>, ghost q: Query, key: Str, ghost keys: seq<Str>,
                  ghost i: nat, ghost pairs: seq<Pair>)
    returns (result: Str, written: nat, ghost pairs': seq<Pair>)
    requires builder == Join(pairs) && count == |pairs| && OrderedPairs(pairs)
    requires i < |keys| && key == keys[i] && Ordered(keys) && Once(keys) && Ordered(values)
    requires multiset(values) == multiset(Values(q, key))
    requires Written(pairs, q, keys, i, []) && Behind(pairs, keys, i, [], 0)
    ensures result == Join(pairs') && written == |pairs'| && OrderedPairs(pairs')
    ensures Written(pairs', q, keys, i + 1, []) && Behind(pairs', keys, i + 1, [], 0)
  {
    hide Join, Written, OrderedPairs, PairLessEq, Values, LessEq;
    result, written, pairs' := builder, count, pairs;
    assert values[..0] == [];
    var j := 0;
    while j < |values|
      invariant 0 <= j <= |values| && result == Join(pairs') && written == |pairs'| && OrderedPairs(pairs')
      invariant Written(pairs', q, keys, i, values[..j]) && Behind(pairs', keys, i, values, j)
    {
      result := WritePair(result, written, key, values[j], pairs');
      BehindIsBelow(pairs', keys, i, values, j);
      OrderedOneMore(pairs', Pair(key, values[j]));
      WrittenOne(pairs', q, keys, i, values[..j], values[j]);
      assert values[..j + 1] == values[..j] + [values[j]];
      pairs' := pairs' + [Pair(key, values[j])];
      written := written + 1;
      j := j + 1;
    }
    assert values[..j] == values;
    WrittenKey(pairs', q, keys, i, values);
    assert forall k :: 0 <= k < |pairs'| && pairs'[k].key == keys[i] ==> pairs'[k].key in keys[..i + 1];
  }

  /** Build the canonical string of a query: its keys sorted, each key's values sorted. */
  method CanonicalQueryString(q: Query) returns (r: Str)
    requires KeysOnce(q)
    ensures IsCanonical(r, q)
  {
    hide Join, Written, OrderedPairs, Values, LessEq, Carries;
    var keys: seq<Str> := [];
    for n := 0 to |q|
      invariant |keys| == n && forall k :: 0 <= k < n ==> keys[k] == q[k].0
    {
      keys := keys + [q[n].0];
    }
    ghost var unsorted := keys;
    keys := Sort(keys);
    SortedOnce(unsorted, keys);
    r := [];
    var count := 0;
    ghost var pairs: seq<Pair> := [];
    EmptyJoin();
    NothingWritten(q, keys);
    var i := 0;
    while i < |keys|
      invariant 0 <= i <= |keys| && r == Join(pairs) && count == |pairs| && OrderedPairs(pairs)
      invariant Written(pairs, q, keys, i, []) && Behind(pairs, keys, i, [], 0)
    {
      assert keys[i] in multiset(unsorted);
      var values := Lookup(q, keys[i]);
      values := Sort(values);
      r, count, pairs := WriteKey(r, count, values, q, keys[i], keys, i, pairs);
      i := i + 1;
    }
    AllWritten(pairs, q, unsorted, keys);
  }

  method Lookup(q: Query, key: Str) returns (values: seq<Str>)
    requires KeysOnce(q)
    ensures values == Values(q, key)
  {
    for n := 0 to |q|
      invariant forall k :: 0 <= k < n ==> q[k].0 != key
    {
      if q[n].0 == key {
        ValuesAt(q, n);
        return q[n].1;
      }
    }
    ValuesMissing(q, key);
    values := [];
  }

  lemma SortedOnce(keys: seq<Str>, keys': seq<Str>)
    requires Once(keys) && multiset(keys') == multiset(keys)
    ensures Once(keys')
  {
    forall i, j | 0 <= i < j < |keys'| ensures keys'[i] != keys'[j] {
      if keys'[i] == keys'[j] {
        TwiceCounts(keys', i, j);
        OnceCounts(keys, keys'[i]);
      }
    }
  }

  lemma TwiceCounts(keys: seq<Str>, i: int, j: int)
    requires 0 <= i < j < |keys| && keys[i] == keys[j]
    ensures multiset(keys)[keys[i]] >= 2
  {
    assert keys == keys[..j] + [keys[j]] + keys[j + 1..];
    assert keys[..j][i] == keys[i] && keys[i] in multiset(keys[..j]);
  }

  lemma {:induction false} OnceCounts(keys: seq<Str>, key: Str)
    requires Once(keys)
    ensures multiset(keys)[key] <= 1
  {
    if keys != [] {
      var n := |keys| - 1;
      OnceCounts(keys[..n], key);
      assert keys == keys[..n] + [keys[n]];
      assert keys[n] !in keys[..n];
    }
  }

  lemma NothingWritten(q: Query, keys: seq<Str>)
    ensures Written([], q, keys, 0, []) && Behind([], keys, 0, [], 0) && OrderedPairs([])
  {
  }

  lemma AllWritten(pairs: seq<Pair>, q: Query, unsorted: seq<Str>, keys: seq<Str>)
    requires KeysOnce(q) && multiset(keys) == multiset(unsorted) && |unsorted| == |q|
    requires forall k :: 0 <= k < |q| ==> unsorted[k] == q[k].0
    requires Written(pairs, q, keys, |keys|, [])
    ensures Carries(pairs, q)
  {
    assert keys[..|keys|] == keys;
    forall p: Pair ensures multiset(pairs)[p] == multiset(Values(q, p.key))[p.value] {
      if p.key !in keys {
        forall k | 0 <= k < |q| ensures q[k].0 != p.key {
          assert unsorted[k] in multiset(unsorted);
          assert unsorted[k] in multiset(keys);
        }
        ValuesMissing(q, p.key);
      }
    }
  }
}
