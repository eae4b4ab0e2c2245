/** Properties that relate several calls of the translation service. */
module ServiceProperties {
  import opened Wrappers
  import opened JsText
  import opened Languages
  import opened CacheKeys
  import opened BatchSlots
  import opened TranslationService

  /** When no provider call is made, the provider's reply plays no part. */
  lemma TextWithoutCallIgnoresReply(svc: Service, text: string, target: string, source: Option<string>,
                                    reply1: ProviderReply, reply2: ProviderReply)
    requires TranslateText(svc, text, target, source, reply1).call.None?
    ensures TranslateText(svc, text, target, source, reply2) == TranslateText(svc, text, target, source, reply1)
  {
  }

  /** Memoisation: once a call has been answered by a working provider, asking
      again gives the same answer from the cache, without a provider call and
      whatever the provider would now say. */
  lemma RepeatedTextIsCacheHit(svc: Service, text: string, target: string, source: Option<string>,
                               reply: ProviderReply, later: ProviderReply)
    requires reply.ProviderSuccess? && reply.translations != []
    ensures var first := TranslateText(svc, text, target, source, reply);
            var second := TranslateText(first.service, text, target, source, later);
            second == TextOutcome(first.translated, first.service, None)
  {
  }

  /** Caching a translation into one registry language leaves every cached
      translation of another text or into another registry language as it was. */
  lemma TextTouchesOnlyItsKey(svc: Service, text: string, target: string, source: Option<string>,
                              reply: ProviderReply, text': string, target': string)
    requires IsLanguageCode(target) && IsLanguageCode(target')
    requires (text', target') != (text, target)
    ensures Lookup(TranslateText(svc, text, target, source, reply).service.cache, text', target')
         == Lookup(svc.cache, text', target')
  {
    LanguageCacheKeyInjective(text, target, text', target');
  }

  /** For a non-blank text, a one-element batch behaves as a single translation:
      the same answer, the same cache, and a call exactly when the single path
      makes one, carrying the same text. */
  lemma SingletonBatchMatchesText(svc: Service, text: string, target: string, source: Option<string>,
                                  reply: ProviderReply)
    requires !IsBlank(text) && ReplyCovers(reply, 1)
    ensures BatchReplyFits(svc, [text], target, source, reply)
    ensures var one := TranslateText(svc, text, target, source, reply);
            var batch := TranslateBatch(svc, [text], target, source, reply);
            && batch.translated == [one.translated]
            && batch.service == one.service
            && (batch.call.Some? <==> one.call.Some?)
            && (batch.call.Some? ==> batch.call.value.q == Many([text]))
  {
    var slots := Slots(svc.cache, [text], target);
    assert CountMisses(slots) == (if slots[0].None? then 1 else 0) by {
      assert slots[1..] == [];
    }
    if svc.apiKey != "" && SourceOrDefault(source) != target && slots[0].None? {
      SingletonMiss(svc, text, target, source, reply);
    }
  }

  /** The uncached case of `SingletonBatchMatchesText`. */
  lemma SingletonMiss(svc: Service, text: string, target: string, source: Option<string>,
                      reply: ProviderReply)
    requires ReplyCovers(reply, 1) && svc.apiKey != "" && SourceOrDefault(source) != target
    requires !IsCached(svc.cache, text, target)
    requires CountMisses(Slots(svc.cache, [text], target)) == 1
    ensures var batch := TranslateBatch(svc, [text], target, source, reply);
            && batch.call == Some(ProviderCall(Many([text]), target, SourceOrDefault(source)))
            && (reply.ProviderFailure? ==> batch.translated == [text] && batch.service == svc)
            && (reply.ProviderSuccess? ==>
                  && batch.translated == [reply.translations[0]]
                  && batch.service.cache == svc.cache[CacheKey(text, target) := reply.translations[0]])
  {
    var slots := Slots(svc.cache, [text], target);
    var batch := TranslateBatch(svc, [text], target, source, reply);
    assert MissRank(slots, 0) == 0;
    assert batch.call.Some?;
    assert batch.call.value.q.texts == [text];
    if reply.ProviderSuccess? {
      assert batch.translated == [reply.translations[0]] by {
        assert MissesFilled(svc.cache, [text], target, batch.translated, reply.translations);
      }
      assert batch.service.cache == svc.cache[CacheKey(text, target) := reply.translations[0]] by {
        assert LastMiss([text], slots, 0);
        assert MissKeys([text], slots, target) == {CacheKey(text, target)};
        assert MissesStored(svc.cache, batch.service.cache, [text], target, reply.translations);
      }
    }
  }

  /** The batch path has no blank-text check: an uncached whitespace-only text
      is sent to the provider, where the single path answers it locally. */
  lemma BlankTextSentOnlyInBatches(svc: Service, text: string, target: string, source: Option<string>,
                                   reply: ProviderReply)
    requires IsBlank(text) && ReplyCovers(reply, 1)
    requires svc.apiKey != "" && SourceOrDefault(source) != target && !IsCached(svc.cache, text, target)
    ensures BatchReplyFits(svc, [text], target, source, reply)
    ensures TranslateBatch(svc, [text], target, source, reply).call
         == Some(ProviderCall(Many([text]), target, SourceOrDefault(source)))
    ensures TranslateText(svc, text, target, source, reply) == TextOutcome(text, svc, None)
  {
    var slots := Slots(svc.cache, [text], target);
    assert CountMisses(slots) == 1 by {
      assert slots[1..] == [];
    }
    SingletonMiss(svc, text, target, source, reply);
  }

  /** A text of a batch that no later position repeats is afterwards a cache hit
      whose value is the batch's answer at that position, whether it came from
      the cache or from the provider. */
  lemma BatchAnswersAreCached(svc: Service, texts: seq<string>, target: string, source: Option<string>,
                              reply: ProviderReply, i: nat, later: ProviderReply)
    requires BatchReplyFits(svc, texts, target, source, reply) && reply.ProviderSuccess?
    requires svc.apiKey != "" && SourceOrDefault(source) != target
    requires i < |texts| && !IsBlank(texts[i])
    requires forall j :: i < j < |texts| ==> texts[j] != texts[i]
    ensures var o := TranslateBatch(svc, texts, target, source, reply);
            TranslateText(o.service, texts[i], target, source, later) == TextOutcome(o.translated[i], o.service, None)
  {
    var o := TranslateBatch(svc, texts, target, source, reply);
    var slots := Slots(svc.cache, texts, target);
    if slots[i].None? {
      assert LastMiss(texts, slots, i);
      assert o.call.Some?;
      assert CacheKey(texts[i], target) in MissKeys(texts, slots, target);
    }
  }

  /** A batch whose every text is cached sends nothing, so any reply fits it. */
  lemma AllCachedNeedsNoReply(svc: Service, texts: seq<string>, target: string, source: Option<string>,
                              reply: ProviderReply)
    requires forall i :: 0 <= i < |texts| ==> IsCached(svc.cache, texts[i], target)
    ensures CountMisses(Slots(svc.cache, texts, target)) == 0
    ensures BatchReplyFits(svc, texts, target, source, reply)
  {
    var slots := Slots(svc.cache, texts, target);
    if CountMisses(slots) != 0 {
      OpenSlotExists(slots);
    }
  }

  /** Repeating a successful batch makes no provider call and leaves the cache
      alone; it gives the same list back except where a text appears twice,
      when every occurrence now reads the last occurrence's translation. */
  lemma RepeatedBatchIsCacheHit(svc: Service, texts: seq<string>, target: string, source: Option<string>,
                                reply: ProviderReply, later: ProviderReply)
    requires BatchReplyFits(svc, texts, target, source, reply) && reply.ProviderSuccess?
    ensures var first := TranslateBatch(svc, texts, target, source, reply);
            && BatchReplyFits(first.service, texts, target, source, later)
            && var second := TranslateBatch(first.service, texts, target, source, later);
               && second.call.None? && second.service == first.service
               && forall i, j :: 0 <= i <= j < |texts| && texts[i] == texts[j]
                                 && (forall k :: j < k < |texts| ==> texts[k] != texts[j]) ==>
                    second.translated[i] == first.translated[j]
  {
    var first := TranslateBatch(svc, texts, target, source, reply);
    if svc.apiKey != "" && SourceOrDefault(source) != target {
      var slots := Slots(svc.cache, texts, target);
      assert forall i :: 0 <= i < |texts| ==> IsCached(first.service.cache, texts[i], target) by {
        forall i | 0 <= i < |texts| ensures IsCached(first.service.cache, texts[i], target) {
          if slots[i].None? {
            assert first.call.Some?;
            assert CacheKey(texts[i], target) in MissKeys(texts, slots, target);
          }
        }
      }
      AllCachedNeedsNoReply(first.service, texts, target, source, later);
      var second := TranslateBatch(first.service, texts, target, source, later);
      forall i, j | 0 <= i <= j < |texts| && texts[i] == texts[j]
                    && (forall k :: j < k < |texts| ==> texts[k] != texts[j])
        ensures second.translated[i] == first.translated[j]
      {
        assert second.translated[i] == first.service.cache[CacheKey(texts[j], target)];
        if slots[j].None? {
          assert LastMiss(texts, slots, j);
          assert first.call.Some?;
        }
      }
    }
  }

  /** With "A" and "C" cached in French, translating ["A", "B", "C"] sends
      exactly ["B"] and answers in input order. */
  lemma OnlyMissesAreSent(key: string)
    requires key != ""
    ensures var svc := Service(key, map[CacheKey("A", "fr") := "A-fr", CacheKey("C", "fr") := "C-fr"]);
            && CountMisses(Slots(svc.cache, ["A", "B", "C"], "fr")) == 1
            && var o := TranslateBatch(svc, ["A", "B", "C"], "fr", Some("en"), ProviderSuccess(["B-fr"]));
               && o.call == Some(ProviderCall(Many(["B"]), "fr", "en"))
               && o.translated == ["A-fr", "B-fr", "C-fr"]
  {
    var svc := Service(key, map[CacheKey("A", "fr") := "A-fr", CacheKey("C", "fr") := "C-fr"]);
    var texts := ["A", "B", "C"];
    SameTargetKeyInjective("A", "B", "fr");
    SameTargetKeyInjective("C", "B", "fr");
    var slots := Slots(svc.cache, texts, "fr");
    assert slots == [Some("A-fr"), None, Some("C-fr")];
    assert MissRank(slots, 0) == 0;
    MissRankStep(slots, 0);
    MissRankStep(slots, 1);
    MissRankStep(slots, 2);
    assert slots[..3] == slots;
    var o := TranslateBatch(svc, texts, "fr", Some("en"), ProviderSuccess(["B-fr"]));
    assert o.call.Some?;
    assert o.call.value.q.texts == ["B"];
  }

  /** On a provider failure the batch answers with the input list, even at
      positions whose text is cached: the cached answers are dropped, not kept. */
  lemma FailedBatchDropsCachedAnswers(key: string)
    requires key != ""
    ensures var svc := Service(key, map[CacheKey("A", "fr") := "A-fr"]);
            var o := TranslateBatch(svc, ["A", "B"], "fr", None, ProviderFailure);
            o.translated == ["A", "B"] && o.call.Some? && o.service == svc
  {
    var svc := Service(key, map[CacheKey("A", "fr") := "A-fr"]);
    SameTargetKeyInjective("A", "B", "fr");
    assert !IsCached(svc.cache, "B", "fr");
  }
}
