/** The title trimming helper of src/util/text.ts. */
module Text {
  import opened Common

  /** Discord limits titles to this many characters. */
  const DefaultTrimLength: int := 100

  /** `trimString(str, length)`: a string of at least `length` characters
      is cut to its first `length - 3` characters followed by "...". */
  function TrimString(str: string, length: int := DefaultTrimLength): (r: string)
    ensures |str| < length ==> r == str
    ensures |str| >= length ==> 3 <= |r| <= |str| + 3 && r[|r| - 3..] == "..."
    ensures |str| >= length ==> r[..|r| - 3] == str[..|r| - 3]
    ensures length >= 3 ==> |r| <= length
    ensures length >= 3 && |str| >= length ==> |r| == length
  {
    if |str| >= length then SliceTo(str, length - 3) + "..." else str
  }

  /** A string of exactly `length` characters is still cut. */
  lemma TrimStringAtLimit(str: string, length: int)
    requires length >= 3 && |str| == length
    ensures TrimString(str, length) != str <==> str[length - 3..] != "..."
  {
    var r := TrimString(str, length);
    assert r == str[..length - 3] + "...";
    if str[length - 3..] == "..." {
      assert str == str[..length - 3] + str[length - 3..];
    } else {
      assert r[length - 3..] == "...";
    }
  }

  /** Trimming twice changes nothing more: the cut string is exactly
      `length` characters long, so it is cut again at the same place. */
  lemma {:induction false} TrimStringIdempotent(str: string, length: int)
    requires length >= 3
    ensures TrimString(TrimString(str, length), length) == TrimString(str, length)
  {
    var r := TrimString(str, length);
    if |str| >= length {
      assert |r| == length;
      assert r[..length - 3] == str[..length - 3];
      assert TrimString(r, length) == r[..length - 3] + "...";
    }
  }
}
