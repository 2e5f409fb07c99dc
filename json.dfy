/**
 * The per-value replacer and reviver of utils/json.ts: a BigInt is written as its
 * decimal digits followed by "n", and on reading any string that matches
 * `^-?\d+n$` is turned back into a BigInt. Walking the JSON tree is left to
 * `JSON.stringify` / `JSON.parse` and is not modelled; each function here is what
 * happens to one value.
 */
module Json {
  import opened BigNum

  /** The values the replacer and reviver can be handed. */
  datatype Value =
    | Big(n: int)
    | Str(s: string)
    | Num(x: real)
    | Bool(b: bool)
    | Null

  /** The tagged text of a BigInt: `value.toString() + 'n'`. */
  function EncodeBig(n: int): (s: string)
    ensures |s| >= 2 && s[|s| - 1] == 'n'
    ensures s[..|s| - 1] == DecimalString(n)
  {
    DecimalString(n) + "n"
  }

  /** `/^-?\d+n$/.test(s)`. */
  predicate IsTaggedBig(s: string) {
    |s| >= 2 && s[|s| - 1] == 'n' && IsIntegerLiteral(s[..|s| - 1])
  }

  /** `BigInt(s.slice(0, -1))` for a string that matched the pattern. */
  function DecodeTagged(s: string): int
    requires IsTaggedBig(s)
  {
    ParseInteger(s[..|s| - 1])
  }

  /** The replacer passed to `JSON.stringify`. */
  function Replace(v: Value): Value {
    match v
    case Big(n) => Str(EncodeBig(n))
    case _ => v
  }

  /** The reviver passed to `JSON.parse`. */
  function Revive(v: Value): Value {
    if v.Str? && IsTaggedBig(v.s) then Big(DecodeTagged(v.s)) else v
  }

  /** Every encoded BigInt, negatives included, matches `^-?\d+n$` and decodes to itself. */
  lemma EncodeDecode(n: int)
    ensures IsTaggedBig(EncodeBig(n))
    ensures DecodeTagged(EncodeBig(n)) == n
  {
    ParseDecimalString(n);
  }

  /**
   * A value survives the replacer followed by the reviver exactly when it is not a
   * string that already looks like a tagged BigInt.
   */
  lemma RoundTrip(v: Value)
    ensures Revive(Replace(v)) == v <==> !(v.Str? && IsTaggedBig(v.s))
  {
    match v
    case Big(n) => EncodeDecode(n);
    case Str(s) =>
      if IsTaggedBig(s) {
        assert Revive(Replace(v)).Big?;
      }
    case _ =>
  }

  /** Strings that do not match the pattern, and all non-string values, pass through the reviver untouched. */
  lemma ReviveLeavesOthers(v: Value)
    requires !v.Str? || !IsTaggedBig(v.s)
    ensures Revive(v) == v
  {
  }

  /**
   * The replacer changes a value exactly when it is a BigInt: every other value,
   * tagged-looking strings such as "42n" included, is returned as it is, and a
   * BigInt always becomes a tagged string.
   */
  lemma ReplaceLeavesNonBig(v: Value)
    ensures Replace(v) == v <==> !v.Big?
    ensures v.Big? ==> Replace(v).Str? && IsTaggedBig(Replace(v).s)
  {
    if v.Big? {
      EncodeDecode(v.n);
    }
  }

  /** A genuine string "42n" is read back as the BigInt 42, so it does not survive a save and load. */
  lemma TaggedLookingStringBecomesBig()
    ensures Revive(Replace(Str("42n"))) == Big(42)
  {
    var s := "42n";
    assert s[..|s| - 1] == "42";
    assert AllDigits("42");
    assert ParseDigits("42") == 42 by {
      assert "42"[..1] == "4";
      assert "4"[..0] == "";
    }
  }
}
