/** Keys of the translation cache: `${targetLang}:${text}` (lib/translation.ts). */
module CacheKeys {
  import opened Wrappers
  import opened Languages

  /** `getCacheKey(text, targetLang)`: the target language, a colon, then the text. */
  function CacheKey(text: string, targetLang: string): string
  {
    targetLang + ":" + text
  }

  /** Splits a key at its first colon into (target language, text); the inverse
      of `CacheKey` on colon-free targets (see `SplitCacheKey`). */
  function SplitKey(k: string): (r: Option<(string, string)>)
    ensures r.None? <==> ':' !in k
    ensures r.Some? ==> ':' !in r.value.0 && CacheKey(r.value.1, r.value.0) == k
  {
    if k == [] then None
    else if k[0] == ':' then Some(([], k[1..]))
    else match SplitKey(k[1..])
      case None => None
      case Some((target, text)) => Some(([k[0]] + target, text))
  }

  /** Splitting the key of a colon-free target gives back the target and the text. */
  lemma {:induction false} SplitCacheKey(text: string, target: string)
    requires ':' !in target
    ensures SplitKey(CacheKey(text, target)) == Some((target, text))
  {
    if target == [] {
      assert CacheKey(text, target) == [':'] + text;
    } else {
      SplitCacheKey(text, target[1..]);
      assert CacheKey(text, target)[1..] == CacheKey(text, target[1..]);
      assert [target[0]] + target[1..] == target;
    }
  }

  /** Keys of colon-free targets never collide: the key determines both parts. */
  lemma CacheKeyInjective(text1: string, target1: string, text2: string, target2: string)
    requires ':' !in target1 && ':' !in target2
    requires CacheKey(text1, target1) == CacheKey(text2, target2)
    ensures target1 == target2 && text1 == text2
  {
    SplitCacheKey(text1, target1);
    SplitCacheKey(text2, target2);
  }

  /** For registry languages the key is injective over (target, text). */
  lemma LanguageCacheKeyInjective(text1: string, target1: string, text2: string, target2: string)
    requires IsLanguageCode(target1) && IsLanguageCode(target2)
    ensures CacheKey(text1, target1) == CacheKey(text2, target2)
        <==> target1 == target2 && text1 == text2
  {
    LanguageCodeHasNoColon(target1);
    LanguageCodeHasNoColon(target2);
    if CacheKey(text1, target1) == CacheKey(text2, target2) {
      CacheKeyInjective(text1, target1, text2, target2);
    }
  }

  /** Within one target language, whatever it is, distinct texts get distinct keys. */
  lemma SameTargetKeyInjective(text1: string, text2: string, target: string)
    ensures CacheKey(text1, target) == CacheKey(text2, target) <==> text1 == text2
  {
    if CacheKey(text1, target) == CacheKey(text2, target) {
      var n := |target| + 1;
      assert text1 == CacheKey(text1, target)[n..];
      assert text2 == CacheKey(text2, target)[n..];
    }
  }

  /** A target that contains a colon (which the HTTP routes accept, since they
      do not check targets against the registry) shares its keys with another
      (target, text) pair. */
  lemma ColonTargetCollides(text: string, target: string)
    requires ':' in target
    ensures exists text', target' ::
              (target', text') != (target, text) && CacheKey(text', target') == CacheKey(text, target)
  {
    var i :| 0 <= i < |target| && target[i] == ':';
    var target', text' := target[..i], target[i + 1..] + ":" + text;
    assert |target'| < |target|;
    assert target == target' + ":" + target[i + 1..];
    assert CacheKey(text', target') == CacheKey(text, target);
  }
}
