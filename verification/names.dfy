/**
 * Text helpers of the event-binding resolver: the prefix test applied to
 * handler names and the extraction of the event type that follows the prefix.
 */
module Names {

  datatype Option<T> = None | Some(value: T)

  /** `prefix` is a textual prefix of `s` (Go's strings.HasPrefix). */
  predicate HasPrefix(s: string, prefix: string) {
    |prefix| <= |s| && s[..|prefix|] == prefix
  }

  /** `suffix` is a textual suffix of `s`. */
  predicate HasSuffix(s: string, suffix: string) {
    |suffix| <= |s| && s[|s| - |suffix|..] == suffix
  }

  /** What follows `prefix` in `s`: the slice `s[len(prefix):]`. */
  function Suffix(s: string, prefix: string): (r: string)
    requires HasPrefix(s, prefix)
    ensures prefix + r == s
    ensures |r| == |s| - |prefix|
    ensures HasSuffix(s, r)
  {
    assert s == s[..|prefix|] + s[|prefix|..];
    s[|prefix|..]
  }

  /** The event type extracted after a prefix determines the whole name:
      two different names with one prefix never share an event type. */
  lemma SuffixInjective(s1: string, s2: string, prefix: string)
    requires HasPrefix(s1, prefix) && HasPrefix(s2, prefix)
    requires Suffix(s1, prefix) == Suffix(s2, prefix)
    ensures s1 == s2
  {
  }

  /** Gluing a suffix to a prefix gives a name that has both. */
  lemma {:induction false} ConcatHasPrefixAndSuffix(prefix: string, suffix: string)
    ensures HasPrefix(prefix + suffix, prefix)
    ensures Suffix(prefix + suffix, prefix) == suffix
    ensures HasSuffix(prefix + suffix, suffix)
  {
    var s := prefix + suffix;
    assert s[..|prefix|] == prefix;
    assert s[|prefix|..] == suffix;
  }
}
