/** The bytes a prompt's hash is taken over: each part preceded by its length in decimal and a zero byte. */
module Digest {
  import opened Vocabulary

  type Byte = b: nat | b < 256

  /** The UTF-8 bytes of everything that could change a response. */
  datatype Request = Request(model: seq<Byte>, effort: seq<Byte>, system: seq<Byte>, user: seq<Byte>, schema: seq<Byte>)

  const ZERO: Byte := 0

  // ---- encoding ----

  /** A number's decimal digits in ASCII. */
  function Decimal(n: nat): (s: seq<Byte>)
    ensures |s| > 0
  {
    if n < 10 then [48 + n] else Decimal(n / 10) + [48 + n % 10]
  }

  function Frame(part: seq<Byte>): seq<Byte> {
    Decimal(|part|) + [ZERO] + part
  }

  function Encode(parts: seq<seq<Byte>>): seq<Byte> {
    if parts == [] then [] else Frame(parts[0]) + Encode(parts[1..])
  }

  function Parts(r: Request): seq<seq<Byte>> {
    [r.model, r.effort, r.system, r.user, r.schema]
  }

  /** A hasher is known by what it has been fed. */
  class Hasher {
    var fed: seq<Byte>

    constructor ()
      ensures fed == []
    {
      fed := [];
    }

    method Update(bytes: seq<Byte>)
      modifies this
      ensures fed == old(fed) + bytes
    {
      fed := fed + bytes;
    }
  }

  lemma EncodeStep(fed: seq<Byte>, parts: seq<seq<Byte>>, i: nat)
    requires i < |parts|
    ensures fed + Encode(parts[i..]) == fed + Decimal(|parts[i]|) + [ZERO] + parts[i] + Encode(parts[i + 1..])
  {
    assert parts[i..][1..] == parts[i + 1..];
    assert Encode(parts[i..]) == Decimal(|parts[i]|) + [ZERO] + parts[i] + Encode(parts[i + 1..]);
  }

  /** Feeds the hasher part by part; what was hashed is the request's encoding. */
  method PromptDigest(r: Request) returns (hashed: seq<Byte>)
    ensures hashed == Encode([r.model, r.effort, r.system, r.user, r.schema])
  {
    var hasher := new Hasher();
    var parts := Parts(r);
    ghost var all := Encode(parts);
    assert parts[0..] == parts && [] + all == all;
    for i := 0 to |parts|
      invariant hasher.fed + Encode(parts[i..]) == all
    {
      EncodeStep(hasher.fed, parts, i);
      hasher.Update(Decimal(|parts[i]|));
      hasher.Update([ZERO]);
      hasher.Update(parts[i]);
    }
    hashed := hasher.fed;
    assert parts[|parts|..] == [] && hashed + [] == hashed;
  }

  // ---- decoding ----

  function Number(digits: seq<Byte>): nat {
    if digits == [] then 0
    else Number(digits[..|digits| - 1]) * 10 + if digits[|digits| - 1] >= 48 then digits[|digits| - 1] - 48 else 0
  }

  /** Where the first zero byte is, or the length if there is none. */
  function FirstZero(s: seq<Byte>): (k: nat)
    ensures k <= |s|
  {
    if s == [] || s[0] == 0 then 0 else 1 + FirstZero(s[1..])
  }

  /** Reads frames until nothing is left; lengths must be written the one way Decimal writes them. */
  function Decode(s: seq<Byte>): Option<seq<seq<Byte>>>
    decreases |s|
  {
    if s == [] then Some([])
    else
      var k := FirstZero(s);
      var n := Number(s[..k]);
      if k >= |s| || s[..k] != Decimal(n) || |s| - k - 1 < n then None
      else
        var rest := Decode(s[k + 1 + n..]);
        if rest.None? then None else Some([s[k + 1..k + 1 + n]] + rest.value)
  }

  lemma {:induction false} DecimalReadsBack(n: nat)
    ensures Number(Decimal(n)) == n
    ensures forall i :: 0 <= i < |Decimal(n)| ==> Decimal(n)[i] != 0
  {
    if n >= 10 {
      DecimalReadsBack(n / 10);
      assert Decimal(n)[..|Decimal(n)| - 1] == Decimal(n / 10);
    } else {
      assert Decimal(n)[..0] == [];
    }
  }

  lemma {:induction false} FirstZeroAfter(digits: seq<Byte>, rest: seq<Byte>)
    requires forall i :: 0 <= i < |digits| ==> digits[i] != 0
    ensures FirstZero(digits + [ZERO] + rest) == |digits|
  {
    var s := digits + [ZERO] + rest;
    if digits != [] {
      assert s[1..] == digits[1..] + [ZERO] + rest;
      FirstZeroAfter(digits[1..], rest);
    }
  }

  lemma DecodeFrame(part: seq<Byte>, rest: seq<Byte>)
    ensures Decode(Frame(part) + rest) == if Decode(rest).None? then None else Some([part] + Decode(rest).value)
  {
    var digits, s := Decimal(|part|), Frame(part) + rest;
    DecimalReadsBack(|part|);
    assert s == digits + [ZERO] + (part + rest);
    FirstZeroAfter(digits, part + rest);
    var k := |digits|;
    assert s[..k] == digits;
    assert s[k + 1..k + 1 + |part|] == part;
    assert s[k + 1 + |part|..] == rest;
  }

  /** The parts can be read back from the bytes, whatever the parts contain and however many there are. */
  lemma {:induction false} PartsReadBack(parts: seq<seq<Byte>>)
    ensures Decode(Encode(parts)) == Some(parts)
  {
    if parts != [] {
      PartsReadBack(parts[1..]);
      DecodeFrame(parts[0], Encode(parts[1..]));
      assert parts == [parts[0]] + parts[1..];
    }
  }

  /** And nothing else reads back: what decodes is the encoding of what it decodes to. */
  lemma {:induction false} OnlyEncodingsDecode(s: seq<Byte>)
    requires Decode(s).Some?
    ensures Encode(Decode(s).value) == s
    decreases |s|
  {
    if s != [] {
      var k := FirstZero(s);
      var n := Number(s[..k]);
      var rest := s[k + 1 + n..];
      OnlyEncodingsDecode(rest);
      FirstZeroIsZero(s);
      var parts := Decode(s).value;
      assert parts[1..] == Decode(rest).value;
      assert s == s[..k] + [ZERO] + s[k + 1..k + 1 + n] + rest;
    }
  }

  lemma {:induction false} FirstZeroIsZero(s: seq<Byte>)
    ensures FirstZero(s) < |s| ==> s[FirstZero(s)] == 0
  {
    if s != [] && s[0] != 0 {
      FirstZeroIsZero(s[1..]);
    }
  }

  /** Two requests are hashed over the same bytes only if they agree in every part: no combination of contents can be
      mistaken for another by running together. */
  lemma RequestsNeverCollide(a: Request, b: Request)
    ensures Encode(Parts(a)) == Encode(Parts(b)) <==> a == b
  {
    PartsReadBack(Parts(a));
    PartsReadBack(Parts(b));
    if Encode(Parts(a)) == Encode(Parts(b)) {
      assert Parts(a) == Parts(b);
      assert Parts(a)[0] == Parts(b)[0] && Parts(a)[1] == Parts(b)[1] && Parts(a)[2] == Parts(b)[2];
      assert Parts(a)[3] == Parts(b)[3] && Parts(a)[4] == Parts(b)[4];
    }
  }
}
