/**
 Extension blocks (section 7.4.1.4 of RFC 5246) as lists of codes and bodies, and the forms a body can have.
 */
module Extensions {
  import opened Bytes
  import opened Prelude
  import opened Wire

  // ----- extension blocks -----------------------------------------------------------------------

  datatype Extension = Extension(code: nat, body: seq<byte>)

  predicate Proper(es: seq<Extension>) {
    forall i :: 0 <= i < |es| ==> es[i].code < 0x10000 && |es[i].body| < 0x10000
  }

  function Printed(es: seq<Extension>): seq<byte> {
    if es == [] then [] else Ext(es[0].code, es[0].body) + Printed(es[1..])
  }

  /** Those extensions of a block whose codes are among `codes`. */
  function Among(codes: set<nat>, es: seq<Extension>): seq<Extension> {
    if es == [] then [] else (if es[0].code in codes then [es[0]] else []) + Among(codes, es[1..])
  }

  lemma {:induction false} AmongProper(codes: set<nat>, es: seq<Extension>)
    requires Proper(es)
    ensures Proper(Among(codes, es)) && |Printed(Among(codes, es))| <= |Printed(es)|
  {
    if es != [] {
      AmongProper(codes, es[1..]);
      var k := Among(codes, es[1..]);
      if es[0].code in codes {
        assert Among(codes, es) == [es[0]] + k && ([es[0]] + k)[1..] == k;
      } else {
        assert Among(codes, es) == k;
      }
      hide Ext;
    }
  }

  function One(present: bool, code: nat, body: seq<byte>): seq<Extension> { if present then [Extension(code, body)] else [] }

  lemma {:induction false} PrintedBoth(a: seq<Extension>, b: seq<Extension>)
    ensures Printed(a + b) == Printed(a) + Printed(b)
  {
    hide Ext;
    if a == [] {
      assert a + b == b;
    } else {
      assert (a + b)[1..] == a[1..] + b;
      PrintedBoth(a[1..], b);
    }
  }

  lemma PrintedOne(present: bool, code: nat, body: seq<byte>)
    ensures Printed(One(present, code, body)) == if present then Ext(code, body) else []
  {
    var e := Extension(code, body);
    assert [e][1..] == [];
    assert Printed([]) == [];
    hide Ext;
    assert Ext(code, body) + [] == Ext(code, body);
  }

  lemma NonePrinted()
    ensures Printed([]) == []
  {
  }

  // ----- bodies of extensions -------------------------------------------------------------------

  predicate WordsBodyIs(d: seq<byte>, vs: seq<nat>) { Small(vs, 0x10000) && 2 * |vs| < 0x10000 && d == Vec(2, Words(vs)) }

  predicate VecBodyIs(d: seq<byte>, s: seq<byte>) { |s| < 256 && d == Vec(1, s) }

  predicate ProtosBodyIs(d: seq<byte>, ss: seq<seq<byte>>) {
    |Vecs(1, ss)| < 0x10000 && d == Vec(2, Vecs(1, ss)) && forall i :: 0 <= i < |ss| ==> 1 <= |ss[i]| < 256
  }

  lemma TwoBytes()
    ensures Power256(2) == 0x10000 && Power256(1) == 256
  {
  }

  lemma WordsIff(d: seq<byte>, vs: seq<nat>)
    ensures |d| >= 2 && BigEndian(d[..2]) == |d| - 2 && |d| % 2 == 0 && ReadWords(d[2..]) == vs <==> WordsBodyIs(d, vs)
  {
    hide BigEndian, Vec, Words, ReadWords, Power256, Small;
    TwoBytes();
    VecIff(2, d, Words(vs));
    if Small(vs, 0x10000) { WordsRoundTrip(vs); }
    if |d| >= 2 && |d| % 2 == 0 { WordsAll(d[2..]); }
  }

  lemma ShortIff(d: seq<byte>, s: seq<byte>)
    ensures d != [] && d[0] as int == |d| - 1 && d[1..] == s <==> VecBodyIs(d, s)
  {
    if |s| < 256 { ShortVec(s); }
    hide Vec;
    assert d != [] ==> d == [d[0]] + d[1..];
  }

  lemma ProtosIff(d: seq<byte>, ss: seq<seq<byte>>)
    ensures |d| >= 2 && BigEndian(d[..2]) == |d| - 2 && ReadVecs(1, 1, false, d[2..]) == Some(ss) <==> ProtosBodyIs(d, ss)
  {
    hide BigEndian, Vec, Vecs, ReadVecs, Power256;
    TwoBytes();
    VecIff(2, d, Vecs(1, ss));
    if |d| >= 2 { VecsIff(1, 1, false, d[2..], ss); }
  }

  lemma ThreeCuts(d: seq<byte>, i: nat, j: nat)
    requires i < j <= |d|
    ensures d == d[..i] + ([d[i]] + d[i + 1..j]) + d[j..]
  {
  }
}
