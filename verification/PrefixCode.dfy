/**
 * A text for events that meets what the byte layer asks of its codec.  It is not the JSON the
 * store writes; it shows that `Recovery.Codec` and `Recovery.NoGlue` can be met together, by an
 * encoder for every event and not only for the encodable ones.
 *
 * Every part of an event is written so that it says itself where it ends, so no encoded event is
 * the beginning of another.
 */
module PrefixCode {
  import opened Wrappers
  import opened Events
  import opened Recovery

  /** A number as that many ones and a zero. */
  function Unary(n: nat): (b: seq<Byte>)
    ensures |b| == n + 1
  {
    if n == 0 then [0] else [1] + Unary(n - 1)
  }

  function Each(ns: seq<nat>): seq<Byte> {
    if |ns| == 0 then [] else Unary(ns[0]) + Each(ns[1..])
  }

  function Many(ns: seq<nat>): seq<Byte> {
    Unary(|ns|) + Each(ns)
  }

  function Codes(s: string): (ns: seq<nat>)
    ensures |ns| == |s| && forall i :: 0 <= i < |s| ==> ns[i] == s[i] as int
  {
    seq(|s|, i requires 0 <= i < |s| => s[i] as int)
  }

  function Signed(i: int): nat {
    if i < 0 then -2 * i - 1 else 2 * i
  }

  /** The parts of an event as lists of numbers, in order. */
  function Parts(e: Event): seq<seq<nat>> {
    [[e.id], Codes(e.kind), Codes(e.actor), Codes(e.source), [Signed(e.timestamp)],
     if e.causedBy.Some? then [1] + e.causedBy.value else [], Codes(e.payload)]
  }

  function All(parts: seq<seq<nat>>): seq<Byte> {
    if |parts| == 0 then [] else Many(parts[0]) + All(parts[1..])
  }

  function Encode(e: Event): seq<Byte> {
    All(Parts(e))
  }

  // ----- every part says where it ends --------------------------------------------

  lemma {:induction false} UnaryEnds(m: nat, n: nat, r: seq<Byte>, t: seq<Byte>)
    requires Unary(m) + r == Unary(n) + t
    ensures m == n && r == t
  {
    var b := Unary(m) + r;
    assert b[0] == Unary(m)[0] && b[0] == Unary(n)[0];
    if m > 0 && n > 0 {
      assert b[1..] == Unary(m - 1) + r;
      assert b[1..] == Unary(n - 1) + t;
      UnaryEnds(m - 1, n - 1, r, t);
    } else {
      assert b[1..] == r && b[1..] == t;
    }
  }

  lemma {:induction false} EachEnds(ms: seq<nat>, ns: seq<nat>, r: seq<Byte>, t: seq<Byte>)
    requires |ms| == |ns| && Each(ms) + r == Each(ns) + t
    ensures ms == ns && r == t
  {
    if |ms| == 0 {
      assert [] + r == r && [] + t == t;
    } else {
      Associates(Unary(ms[0]), Each(ms[1..]), r);
      Associates(Unary(ns[0]), Each(ns[1..]), t);
      UnaryEnds(ms[0], ns[0], Each(ms[1..]) + r, Each(ns[1..]) + t);
      EachEnds(ms[1..], ns[1..], r, t);
      assert ms == [ms[0]] + ms[1..] && ns == [ns[0]] + ns[1..];
    }
  }

  lemma ManyEnds(ms: seq<nat>, ns: seq<nat>, r: seq<Byte>, t: seq<Byte>)
    requires Many(ms) + r == Many(ns) + t
    ensures ms == ns && r == t
  {
    Associates(Unary(|ms|), Each(ms), r);
    Associates(Unary(|ns|), Each(ns), t);
    UnaryEnds(|ms|, |ns|, Each(ms) + r, Each(ns) + t);
    EachEnds(ms, ns, r, t);
  }

  lemma {:induction false} AllEnd(ps: seq<seq<nat>>, qs: seq<seq<nat>>, r: seq<Byte>, t: seq<Byte>)
    requires |ps| == |qs| && All(ps) + r == All(qs) + t
    ensures ps == qs && r == t
  {
    if |ps| == 0 {
      assert [] + r == r && [] + t == t;
    } else {
      Associates(Many(ps[0]), All(ps[1..]), r);
      Associates(Many(qs[0]), All(qs[1..]), t);
      ManyEnds(ps[0], qs[0], All(ps[1..]) + r, All(qs[1..]) + t);
      AllEnd(ps[1..], qs[1..], r, t);
      assert ps == [ps[0]] + ps[1..] && qs == [qs[0]] + qs[1..];
    }
  }

  lemma CodesInjective(a: string, b: string)
    requires Codes(a) == Codes(b)
    ensures a == b
  {
    assert |a| == |b|;
    forall i | 0 <= i < |a| ensures a[i] == b[i] {
      assert Codes(a)[i] == Codes(b)[i];
    }
  }

  lemma PartsInjective(a: Event, b: Event)
    requires Parts(a) == Parts(b)
    ensures a == b
  {
    var p, q := Parts(a), Parts(b);
    assert p[0] == q[0] && p[1] == q[1] && p[2] == q[2] && p[3] == q[3] && p[4] == q[4] && p[5] == q[5] && p[6] == q[6];
    assert p[0][0] == q[0][0] && p[4][0] == q[4][0];
    CodesInjective(a.kind, b.kind);
    CodesInjective(a.actor, b.actor);
    CodesInjective(a.source, b.source);
    CodesInjective(a.payload, b.payload);
    if a.causedBy.Some? && b.causedBy.Some? {
      assert p[5][1..] == a.causedBy.value && q[5][1..] == b.causedBy.value;
    }
  }

  /** No encoded event is the beginning of another one, with anything after either. */
  lemma EncodeEnds(a: Event, b: Event, r: seq<Byte>, t: seq<Byte>)
    requires Encode(a) + r == Encode(b) + t
    ensures a == b && r == t
  {
    AllEnd(Parts(a), Parts(b), r, t);
    PartsInjective(a, b);
  }

  // ----- no newline ---------------------------------------------------------------

  lemma {:induction false} UnaryHasNoNewline(n: nat)
    ensures NEWLINE !in Unary(n)
  {
    if n > 0 { UnaryHasNoNewline(n - 1); }
  }

  lemma {:induction false} EachHasNoNewline(ns: seq<nat>)
    ensures NEWLINE !in Each(ns)
  {
    if |ns| > 0 {
      UnaryHasNoNewline(ns[0]);
      EachHasNoNewline(ns[1..]);
    }
  }

  lemma {:induction false} AllHasNoNewline(parts: seq<seq<nat>>)
    ensures NEWLINE !in All(parts)
  {
    if |parts| > 0 {
      UnaryHasNoNewline(|parts[0]|);
      EachHasNoNewline(parts[0]);
      AllHasNoNewline(parts[1..]);
    }
  }

  // ----- the pair -----------------------------------------------------------------

  ghost predicate Encodes(e: Event, line: Line) {
    Encode(e) == line
  }

  /** Whatever event the line is the text of. */
  ghost function Decode(line: Line): Option<Event> {
    if exists e :: Encodes(e, line) then
      var e :| Encodes(e, line);
      Some(e)
    else None
  }

  lemma DecodeOfEncode(e: Event)
    ensures Decode(Encode(e)) == Some(e)
  {
    assert Encodes(e, Encode(e));
    var line := Encode(e);
    var found := Decode(line).value;
    assert Encodes(found, line);
    EncodeEnds(e, found, [], []);
  }

  lemma PrefixDoesNotDecode(e: Event, k: nat)
    requires k < |Encode(e)|
    ensures Decode(Encode(e)[..k]).None?
  {
    var line := Encode(e);
    if Decode(line[..k]).Some? {
      var found := Decode(line[..k]).value;
      assert Encodes(found, line[..k]);
      assert Encode(found) + line[k..] == line + [];
      EncodeEnds(found, e, line[k..], []);
    }
  }

  lemma GluedDoesNotDecode(t: Line, e: Event)
    requires Decode(t).Some?
    ensures Decode(t + Encode(e)).None?
  {
    var first := Decode(t).value;
    assert Encodes(first, t);
    if Decode(t + Encode(e)).Some? {
      var found := Decode(t + Encode(e)).value;
      assert Encodes(found, t + Encode(e));
      assert Encode(found) + [] == Encode(first) + Encode(e);
      EncodeEnds(found, first, [], Encode(e));
    }
  }

  /** The byte layer's premises can be met together. */
  lemma MeetsCodec() returns (encode: Encoder, decode: Decoder)
    ensures Codec(encode, decode) && NoGlue(encode, decode)
  {
    encode, decode := e => Encode(e), line => Decode(line);
    forall e: Event ensures decode(encode(e)) == Some(e) && NEWLINE !in encode(e) {
      DecodeOfEncode(e);
      AllHasNoNewline(Parts(e));
    }
    forall e: Event, k: nat | k < |encode(e)| ensures decode(encode(e)[..k]).None? {
      PrefixDoesNotDecode(e, k);
    }
    forall t: Line, e: Event | decode(t).Some? ensures decode(t + encode(e)).None? {
      GluedDoesNotDecode(t, e);
    }
  }
}
