/** The random code generators of pkg/utils/code.go.  The seeded random source is
    a parameter: `draws` are the successive values of `Intn(36)`. */
module Code {

  /** The 36 characters a code is made of. */
  const Charset := "ABCDEFGHIJKLMNOPQRSTUVWXYZ0123456789"

  /** What `Intn(len(charset))` can return. */
  predicate ValidDraws(draws: seq<int>)
  {
    forall i :: 0 <= i < |draws| ==> 0 <= draws[i] < |Charset|
  }

  /** The code the draws `ds` spell, one character per draw. */
  function CodeOf(ds: seq<int>): string
    requires ValidDraws(ds)
  {
    seq(|ds|, k requires 0 <= k < |ds| => Charset[ds[k]])
  }

  /** A code has one character per draw, each from the charset. */
  lemma CodeOfShape(ds: seq<int>)
    requires ValidDraws(ds)
    ensures |CodeOf(ds)| == |ds|
    ensures forall i :: 0 <= i < |ds| ==> CodeOf(ds)[i] in Charset
  {
  }

  /** Fills a fresh byte array of `length` characters from the draws, in index
      order. */
  method Fill(length: nat, draws: seq<int>) returns (code: string)
    requires |draws| >= length && ValidDraws(draws)
    ensures |code| == length
    ensures forall i :: 0 <= i < |code| ==> code[i] in Charset
    ensures code == CodeOf(draws[..length])
  {
    var buf := new char[length];
    for i := 0 to length
      invariant forall k :: 0 <= k < i ==> buf[k] == Charset[draws[k]]
    {
      buf[i] := Charset[draws[i]];
    }
    code := buf[..];
  }

  /** `GenOrderCode(length)`. */
  method GenOrderCode(length: nat, draws: seq<int>) returns (code: string)
    requires |draws| >= length && ValidDraws(draws)
    ensures |code| == length
    ensures forall i :: 0 <= i < |code| ==> code[i] in Charset
    ensures code == CodeOf(draws[..length])
  {
    code := Fill(length, draws);
  }

  /** `GenCouponsCode(length)`: the same loop over the same charset. */
  method GenCouponsCode(length: nat, draws: seq<int>) returns (code: string)
    requires |draws| >= length && ValidDraws(draws)
    ensures |code| == length
    ensures forall i :: 0 <= i < |code| ==> code[i] in Charset
    ensures code == CodeOf(draws[..length])
  {
    code := Fill(length, draws);
  }

  /** Given the same draws, the two generators produce the same string. */
  method SameDrawsSameCode(length: nat, draws: seq<int>) returns (order: string, coupon: string)
    requires |draws| >= length && ValidDraws(draws)
    ensures order == coupon
  {
    order := GenOrderCode(length, draws);
    coupon := GenCouponsCode(length, draws);
  }
}
