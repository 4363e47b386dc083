/**
 * truncateId of src/utils/format.ts: an identifier longer than the given
 * length (8 by default) is cut to that many characters and followed by
 * "..."; a shorter one is shown whole.
 */
module Format {

  const DefaultIdLength: int := 8

  /** String.prototype.substring(0, end): the arguments are clamped to the
      text, so a negative end gives the empty text. */
  function Substring0(s: string, end: int): (r: string)
    ensures |r| == if end <= 0 then 0 else if end >= |s| then |s| else end
    ensures r == s[..|r|]
  {
    if end <= 0 then [] else if end >= |s| then s else s[..end]
  }

  /** The result starts with the first min(|id|, length) characters of the
      identifier, is at most three characters longer than that, and is the
      identifier itself when it fits. */
  function TruncateId(id: string, length: int := DefaultIdLength): (r: string)
    ensures |id| <= length ==> r == id
    ensures var k := if length < 0 then 0 else if |id| < length then |id| else length;
            k <= |r| <= k + 3 && r[..k] == id[..k]
  {
    if |id| > length then Substring0(id, length) + "..." else id
  }

  /** An identifier that fits is shown whole; a longer one keeps exactly
      its first `length` characters (none when `length` is negative) and
      gains the ellipsis. */
  lemma TruncateIdCases(id: string, length: int)
    ensures |id| <= length ==> TruncateId(id, length) == id
    ensures |id| > length ==>
              var keep := if length < 0 then 0 else length;
              TruncateId(id, length) == id[..keep] + "..."
  {
  }

  /** Truncating again changes nothing: the truncated text still carries
      the same first `length` characters and the same ellipsis. */
  lemma TruncateIdIdempotent(id: string, length: int)
    ensures TruncateId(TruncateId(id, length), length) == TruncateId(id, length)
  {
    if |id| > length {
      var r := TruncateId(id, length);
      var keep := if length < 0 then 0 else length;
      assert r == id[..keep] + "...";
      assert r[..keep] == id[..keep];
    }
  }

  /** With the default length of eight, an identifier of up to eight
      characters is shown whole and a longer one as eleven characters. */
  lemma DefaultLength(id: string)
    ensures |id| <= 8 ==> TruncateId(id) == id
    ensures |id| > 8 ==> TruncateId(id) == id[..8] + "..." && |TruncateId(id)| == 11
  {
  }
}
