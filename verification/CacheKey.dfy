/** The key of a series in the graph cache, `md5_dsType_step` (modules/graph/g/utils.go). */
module CacheKey {
  import opened Options
  import opened Strings
  import opened Decimal

  datatype Parts = Parts(md5: string, dsType: string, step: int)

  function FormRrdCacheKey(p: Parts): string {
    p.md5 + "_" + p.dsType + "_" + PrintInt(p.step)
  }

  function SplitRrdCacheKey(key: string): Option<Parts> {
    var parts := Split(key, '_');
    if |parts| != 3 then None
    else
      match ParseInt(parts[2], INT32_MAX)
      case None => None
      case Some(step) => Some(Parts(parts[0], parts[1], step))
  }

  predicate Splittable(p: Parts) {
    Plain(p.md5, '_') && Plain(p.dsType, '_') && -INT32_MAX - 1 <= p.step <= INT32_MAX
  }

  /** Splitting undoes forming exactly for underscore-free parts and 32-bit steps. */
  lemma KeyRoundTripIff(p: Parts)
    ensures SplitRrdCacheKey(FormRrdCacheKey(p)) == Some(p) <==> Splittable(p)
  {
    if Plain(p.md5, '_') && Plain(p.dsType, '_') {
      PlainKeySplits(p);
      IntBack(p.step, INT32_MAX);
    }
  }

  lemma PlainKeySplits(p: Parts)
    requires Plain(p.md5, '_') && Plain(p.dsType, '_')
    ensures Split(FormRrdCacheKey(p), '_') == [p.md5, p.dsType, PrintInt(p.step)]
  {
    PrintIntChars(p.step, '_');
    var tail := p.dsType + ['_'] + PrintInt(p.step);
    assert FormRrdCacheKey(p) == p.md5 + ['_'] + tail;
    SplitPrefix(p.md5, '_', tail);
    SplitPrefix(p.dsType, '_', PrintInt(p.step));
    SplitPlain(PrintInt(p.step), '_');
  }

  /** A text is the key's checksum, type and step, each without an underscore. */
  ghost predicate IsKeyOf(key: string, p: Parts, step: string) {
    && key == p.md5 + ['_'] + (p.dsType + ['_'] + step)
    && Plain(p.md5, '_') && Plain(p.dsType, '_') && Plain(step, '_')
    && ParseInt(step, INT32_MAX) == Some(p.step)
  }

  lemma ThreeParts(a: string, b: string, c: string)
    requires Plain(a, '_') && Plain(b, '_') && Plain(c, '_')
    ensures Split(a + ['_'] + (b + ['_'] + c), '_') == [a, b, c]
  {
    SplitPrefix(a, '_', b + ['_'] + c);
    SplitPrefix(b, '_', c);
    SplitPlain(c, '_');
  }

  lemma JoinThree(parts: seq<string>)
    requires |parts| == 3
    ensures Join(parts, '_') == parts[0] + ['_'] + (parts[1] + ['_'] + parts[2])
  {
    var rest := parts[1..];
    assert rest[1..] == [parts[2]] && Join(rest[1..], '_') == parts[2];
    assert Join(rest, '_') == parts[1] + ['_'] + parts[2];
  }

  /** Any text is taken apart if and only if it has that form. */
  lemma SplitIff(key: string, p: Parts)
    ensures SplitRrdCacheKey(key) == Some(p) <==> exists step :: IsKeyOf(key, p, step)
  {
    var parts := Split(key, '_');
    if |parts| == 3 {
      JoinSplit(key, '_');
      JoinThree(parts);
      if SplitRrdCacheKey(key) == Some(p) {
        assert IsKeyOf(key, p, parts[2]);
      }
    }
    if step :| IsKeyOf(key, p, step) {
      ThreeParts(p.md5, p.dsType, step);
    }
  }

  /** Series whose parts can be split apart have different keys. */
  lemma KeyInjective(p: Parts, q: Parts)
    requires Splittable(p) && Splittable(q) && FormRrdCacheKey(p) == FormRrdCacheKey(q)
    ensures p == q
  {
    KeyRoundTripIff(p);
    KeyRoundTripIff(q);
  }

  /** A step beyond 32 bits makes a key that cannot be taken apart, whatever the other parts. */
  lemma WideStepIsLost(p: Parts)
    requires p.step > INT32_MAX && Plain(p.md5, '_') && Plain(p.dsType, '_')
    ensures SplitRrdCacheKey(FormRrdCacheKey(p)) == None
  {
    PlainKeySplits(p);
    IntBack(p.step, INT32_MAX);
  }
}
