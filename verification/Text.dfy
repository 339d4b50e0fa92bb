/** String helpers: suffix tests and the invariant-culture lower-casing,
    modelled on ASCII. */
module Text {

  /** `s.EndsWith(suffix)`. The .NET overload the driver calls compares by
      the current culture; this one compares characters exactly. */
  predicate EndsWith(s: string, suffix: string) {
    |suffix| <= |s| && s[|s| - |suffix|..] == suffix
  }

  /** `s.StartsWith(prefix)`, compared character by character. */
  predicate StartsWith(s: string, prefix: string) {
    |prefix| <= |s| && s[..|prefix|] == prefix
  }

  /** `char.ToLowerInvariant` restricted to ASCII letters. */
  function LowerChar(c: char): (r: char)
    ensures !('A' <= r <= 'Z')
    ensures 'A' <= c <= 'Z' ==> r as int == c as int + 32
    ensures !('A' <= c <= 'Z') ==> r == c
  {
    if 'A' <= c <= 'Z' then (c as int + 32) as char else c
  }

  /** `string.ToLowerInvariant`, character by character. */
  function Lower(s: string): (r: string)
    ensures |r| == |s|
  {
    seq(|s|, i requires 0 <= i < |s| => LowerChar(s[i]))
  }

  /** `ids.Select(x => x.ToLowerInvariant())`. */
  function LowerAll(ids: seq<string>): (r: seq<string>)
    ensures |r| == |ids|
  {
    seq(|ids|, i requires 0 <= i < |ids| => Lower(ids[i]))
  }

  /** Lower-casing twice is lower-casing once. */
  lemma LowerAllIdempotent(ids: seq<string>)
    ensures LowerAll(LowerAll(ids)) == LowerAll(ids)
  {
    forall i | 0 <= i < |ids|
      ensures Lower(Lower(ids[i])) == Lower(ids[i])
    {
      var s := ids[i];
      forall k | 0 <= k < |s|
        ensures Lower(Lower(s))[k] == Lower(s)[k]
      {
        assert LowerChar(LowerChar(s[k])) == LowerChar(s[k]);
      }
    }
  }
}
