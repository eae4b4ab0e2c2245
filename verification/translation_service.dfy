/** `TranslationService` (lib/translation.ts): a memoising, failure-tolerant
    wrapper around the remote translation provider. The process-wide cache is a
    value threaded through the operations, and the provider is an oracle: each
    operation receives the reply the provider would give and reports the call it
    made, if any. */
module TranslationService {
  import opened Wrappers
  import opened JsText
  import opened Languages
  import opened CacheKeys
  import opened BatchSlots

  /** The `q` field sent to the provider: a bare string or a list of strings. */
  datatype Query = One(text: string) | Many(texts: seq<string>)

  /** One request to the provider's translate endpoint. */
  datatype ProviderCall = ProviderCall(q: Query, target: string, source: string)

  /** What the provider call yields: an error that makes the call throw (network,
      non-2xx status, a body without a `data.translations` list), or the
      `translatedText` strings of its response's translations. */
  datatype ProviderReply = ProviderFailure | ProviderSuccess(translations: seq<string>)

  /** The service's state: the API key read at start-up and the cache. */
  datatype Service = Service(apiKey: string, cache: map<string, string>)

  datatype TextOutcome = TextOutcome(translated: string, service: Service, call: Option<ProviderCall>)

  datatype BatchOutcome = BatchOutcome(translated: seq<string>, service: Service, call: Option<ProviderCall>)

  /** The singleton `translationService`: the key comes from the environment
      variable GOOGLE_TRANSLATE_API_KEY, an unset or empty variable giving the empty
      key; the cache starts empty. */
  function NewService(envApiKey: Option<string>): (svc: Service)
    ensures svc.cache == map[]
    ensures svc.apiKey == "" <==> envApiKey.None? || envApiKey.value == ""
    ensures svc.apiKey != "" ==> svc.apiKey == envApiKey.value
  {
    Service(envApiKey.GetOr(""), map[])
  }

  /** `clearCache`: every later lookup misses; the key is kept. */
  function ClearCache(svc: Service): (r: Service)
    ensures r.apiKey == svc.apiKey
    ensures forall text, target :: !IsCached(r.cache, text, target)
  {
    svc.(cache := map[])
  }

  /** The parameter default `sourceLanguage = 'en'`, which applies only when the
      argument is left out. */
  function SourceOrDefault(source: Option<string>): string
  {
    source.GetOr(English)
  }

  predicate IsCached(cache: map<string, string>, text: string, target: string)
  {
    CacheKey(text, target) in cache
  }

  function Lookup(cache: map<string, string>, text: string, target: string): Option<string>
  {
    if IsCached(cache, text, target) then Some(cache[CacheKey(text, target)]) else None
  }

  /** The cache entries of `before` are all still present, with the same values, in `after`. */
  predicate Extends(before: map<string, string>, after: map<string, string>)
  {
    forall k :: k in before ==> k in after && after[k] == before[k]
  }

  /** The per-index cache lookups of a batch (the `results` array after its first pass). */
  function Slots(cache: map<string, string>, texts: seq<string>, target: string): (s: seq<Option<string>>)
    ensures |s| == |texts|
    ensures forall i :: 0 <= i < |texts| ==> s[i] == Lookup(cache, texts[i], target)
  {
    seq(|texts|, i requires 0 <= i < |texts| => Lookup(cache, texts[i], target))
  }

  /** The keys of the open slots of a batch. */
  function MissKeys(texts: seq<string>, slots: seq<Option<string>>, target: string): set<string>
    requires |texts| == |slots|
  {
    set i | 0 <= i < |texts| && slots[i].None? :: CacheKey(texts[i], target)
  }

  /** Open slot `i` is the last open slot carrying its text. */
  predicate LastMiss(texts: seq<string>, slots: seq<Option<string>>, i: nat)
    requires |texts| == |slots| && i < |texts|
  {
    forall j :: i < j < |texts| && slots[j].None? ==> texts[j] != texts[i]
  }

  /** The write-back pass: each open slot, in index order, stores its translation
      under its text's key. Exactly the open slots' keys are added. */
  function WriteBack(cache: map<string, string>, texts: seq<string>, slots: seq<Option<string>>,
                     fills: seq<string>, target: string): (c: map<string, string>)
    requires |texts| == |slots| && CountMisses(slots) <= |fills|
    decreases |texts|
    ensures c.Keys == cache.Keys + MissKeys(texts, slots, target)
  {
    if texts == [] then cache
    else
      MissKeysCons(texts, slots, target);
      if slots[0].Some? then
        WriteBack(cache, texts[1..], slots[1..], fills, target)
      else
        WriteBack(cache[CacheKey(texts[0], target) := fills[0]], texts[1..], slots[1..], fills[1..], target)
  }

  /** The keys of a row's open slots: those of its first slot, if open, and those of the rest. */
  lemma MissKeysCons(texts: seq<string>, slots: seq<Option<string>>, target: string)
    requires |texts| == |slots| && texts != []
    ensures MissKeys(texts, slots, target)
         == MissKeys(texts[1..], slots[1..], target) + (if slots[0].None? then {CacheKey(texts[0], target)} else {})
  {
    var tailKeys := MissKeys(texts[1..], slots[1..], target);
    forall k | k in MissKeys(texts, slots, target)
      ensures k in tailKeys + (if slots[0].None? then {CacheKey(texts[0], target)} else {})
    {
      var i :| 0 <= i < |texts| && slots[i].None? && k == CacheKey(texts[i], target);
      if i > 0 {
        assert texts[1..][i - 1] == texts[i] && slots[1..][i - 1] == slots[i];
      }
    }
    forall k | k in tailKeys ensures k in MissKeys(texts, slots, target) {
      var i :| 0 <= i < |texts| - 1 && slots[1..][i].None? && k == CacheKey(texts[1..][i], target);
      assert slots[i + 1].None? && k == CacheKey(texts[i + 1], target);
    }
  }

  /** Entries whose key no open slot carries come through the write-back unchanged. */
  lemma {:induction false} WriteBackKeepsOthers(cache: map<string, string>, texts: seq<string>,
                                                slots: seq<Option<string>>, fills: seq<string>,
                                                target: string, k: string)
    requires |texts| == |slots| && CountMisses(slots) <= |fills|
    requires k in cache && k !in MissKeys(texts, slots, target)
    decreases |texts|
    ensures WriteBack(cache, texts, slots, fills, target)[k] == cache[k]
  {
    if texts != [] {
      MissKeysCons(texts, slots, target);
      if slots[0].Some? {
        WriteBackKeepsOthers(cache, texts[1..], slots[1..], fills, target, k);
      } else {
        WriteBackKeepsOthers(cache[CacheKey(texts[0], target) := fills[0]], texts[1..], slots[1..], fills[1..], target, k);
      }
    }
  }

  /** The last open slot of a text decides what the write-back stores for that
      text: the translation at that slot's rank. */
  lemma {:induction false} WriteBackLastWins(cache: map<string, string>, texts: seq<string>,
                                             slots: seq<Option<string>>, fills: seq<string>,
                                             target: string, i: nat)
    requires |texts| == |slots| && CountMisses(slots) <= |fills|
    requires i < |texts| && slots[i].None? && LastMiss(texts, slots, i)
    decreases |texts|
    ensures MissRank(slots, i) < |fills|
    ensures WriteBack(cache, texts, slots, fills, target)[CacheKey(texts[i], target)] == fills[MissRank(slots, i)]
  {
    MissRankStep(slots, i);
    MissKeysCons(texts, slots, target);
    var c := WriteBack(cache, texts, slots, fills, target);
    var k0 := CacheKey(texts[0], target);
    if i == 0 {
      var c0 := cache[k0 := fills[0]];
      assert k0 !in MissKeys(texts[1..], slots[1..], target) by {
        forall j | 0 <= j < |texts| - 1 && slots[1..][j].None?
          ensures CacheKey(texts[1..][j], target) != k0
        {
          assert slots[j + 1].None?;
          SameTargetKeyInjective(texts[0], texts[j + 1], target);
        }
      }
      WriteBackKeepsOthers(c0, texts[1..], slots[1..], fills[1..], target, k0);
    } else {
      MissRankTail(slots, i);
      assert texts[1..][i - 1] == texts[i] && slots[1..][i - 1] == slots[i];
      assert LastMiss(texts[1..], slots[1..], i - 1) by {
        forall j | i - 1 < j < |texts| - 1 && slots[1..][j].None?
          ensures texts[1..][j] != texts[1..][i - 1]
        {
          assert slots[j + 1].None? && texts[j + 1] != texts[i];
        }
      }
      if slots[0].Some? {
        WriteBackLastWins(cache, texts[1..], slots[1..], fills, target, i - 1);
      } else {
        WriteBackLastWins(cache[k0 := fills[0]], texts[1..], slots[1..], fills[1..], target, i - 1);
      }
    }
  }

  /** The texts handed to the provider are exactly the batch's uncached texts,
      in input order, duplicates included. */
  predicate SendsMisses(cache: map<string, string>, texts: seq<string>, target: string, sent: seq<string>)
  {
    var slots := Slots(cache, texts, target);
    && |sent| == CountMisses(slots)
    && forall i :: 0 <= i < |texts| && slots[i].None? ==>
         MissRank(slots, i) < |sent| && sent[MissRank(slots, i)] == texts[i]
  }

  /** Every position whose text was cached carries the cached translation. */
  predicate HitsKept(cache: map<string, string>, texts: seq<string>, target: string, out: seq<string>)
    requires |out| == |texts|
  {
    forall i :: 0 <= i < |texts| && IsCached(cache, texts[i], target) ==>
      out[i] == cache[CacheKey(texts[i], target)]
  }

  /** The k-th uncached position carries the k-th translation. */
  predicate MissesFilled(cache: map<string, string>, texts: seq<string>, target: string,
                         out: seq<string>, translations: seq<string>)
    requires |out| == |texts|
  {
    var slots := Slots(cache, texts, target);
    forall i :: 0 <= i < |texts| && slots[i].None? ==>
      MissRank(slots, i) < |translations| && out[i] == translations[MissRank(slots, i)]
  }

  /** After a successful batch: the cache gained exactly the uncached texts' keys,
      and each such text is stored with the translation of its last occurrence. */
  predicate MissesStored(before: map<string, string>, after: map<string, string>, texts: seq<string>,
                         target: string, translations: seq<string>)
  {
    var slots := Slots(before, texts, target);
    && after.Keys == before.Keys + MissKeys(texts, slots, target)
    && forall i :: 0 <= i < |texts| && slots[i].None? && LastMiss(texts, slots, i) ==>
         MissRank(slots, i) < |translations| && after[CacheKey(texts[i], target)] == translations[MissRank(slots, i)]
  }

  /** The provider returns at least one translation per text it was sent. The
      source relies on this without checking it. */
  predicate ReplyCovers(reply: ProviderReply, sent: nat)
  {
    reply.ProviderSuccess? ==> sent <= |reply.translations|
  }

  /** `translateText`: pass-through when there is no key, the text is blank or
      the languages agree; the cached value on a hit; otherwise one provider call,
      whose first translation is cached and returned, any failure giving back
      the original text. */
  function TranslateText(svc: Service, text: string, target: string, source: Option<string>,
                         reply: ProviderReply): (o: TextOutcome)
    ensures o.service.apiKey == svc.apiKey && Extends(svc.cache, o.service.cache)
    ensures svc.apiKey == "" || IsBlank(text) || SourceOrDefault(source) == target ==>
              o == TextOutcome(text, svc, None)
    ensures o.call.Some? <==>
              svc.apiKey != "" && !IsBlank(text) && SourceOrDefault(source) != target
              && !IsCached(svc.cache, text, target)
    ensures o.call.Some? ==> o.call.value == ProviderCall(One(text), target, SourceOrDefault(source))
    ensures o.call.None? && svc.apiKey != "" && !IsBlank(text) && SourceOrDefault(source) != target ==>
              o.translated == svc.cache[CacheKey(text, target)] && o.service == svc
    ensures o.call.Some? && reply.ProviderSuccess? && reply.translations != [] ==>
              o.translated == reply.translations[0]
              && o.service.cache == svc.cache[CacheKey(text, target) := reply.translations[0]]
    ensures o.call.Some? && (reply.ProviderFailure? || reply.translations == []) ==>
              o.translated == text && o.service == svc
  {
    var src := SourceOrDefault(source);
    if svc.apiKey == "" then TextOutcome(text, svc, None)
    else if text == "" || Trim(text) == "" then TextOutcome(text, svc, None)
    else if src == target then TextOutcome(text, svc, None)
    else
      var key := CacheKey(text, target);
      if key in svc.cache then TextOutcome(svc.cache[key], svc, None)
      else
        var call := Some(ProviderCall(One(text), target, src));
        match reply
        case ProviderFailure => TextOutcome(text, svc, call)
        case ProviderSuccess(translations) =>
          // `translations[0].translatedText` throws on an empty list; the throw is caught
          if translations == [] then TextOutcome(text, svc, call)
          else TextOutcome(translations[0], svc.(cache := svc.cache[key := translations[0]]), call)
  }

  /** What `TranslateBatch` needs of the provider's reply: enough translations
      for the texts it sends, when it sends any. */
  predicate BatchReplyFits(svc: Service, texts: seq<string>, target: string, source: Option<string>,
                           reply: ProviderReply)
  {
    svc.apiKey != "" && SourceOrDefault(source) != target ==>
      ReplyCovers(reply, CountMisses(Slots(svc.cache, texts, target)))
  }

  /** `translateBatch`: pass-through when there is no key or the languages agree;
      otherwise cached texts are answered from the cache and the rest go to the
      provider in one call, whose translations are put back at their positions
      and cached. A failed call gives back the input list. There is no blank-text
      check. */
  function TranslateBatch(svc: Service, texts: seq<string>, target: string, source: Option<string>,
                          reply: ProviderReply): (o: BatchOutcome)
    requires BatchReplyFits(svc, texts, target, source, reply)
    ensures |o.translated| == |texts|
    ensures o.service.apiKey == svc.apiKey && Extends(svc.cache, o.service.cache)
    ensures svc.apiKey == "" || SourceOrDefault(source) == target ==> o == BatchOutcome(texts, svc, None)
    ensures o.call.Some? <==>
              svc.apiKey != "" && SourceOrDefault(source) != target
              && exists i :: 0 <= i < |texts| && !IsCached(svc.cache, texts[i], target)
    ensures o.call.Some? ==>
              && o.call.value.target == target && o.call.value.source == SourceOrDefault(source)
              && o.call.value.q.Many? && SendsMisses(svc.cache, texts, target, o.call.value.q.texts)
    ensures o.call.None? && svc.apiKey != "" && SourceOrDefault(source) != target ==>
              o.service == svc && HitsKept(svc.cache, texts, target, o.translated)
    ensures o.call.Some? && reply.ProviderFailure? ==> o.translated == texts && o.service == svc
    ensures o.call.Some? && reply.ProviderSuccess? ==>
              && HitsKept(svc.cache, texts, target, o.translated)
              && MissesFilled(svc.cache, texts, target, o.translated, reply.translations)
              && MissesStored(svc.cache, o.service.cache, texts, target, reply.translations)
  {
    var src := SourceOrDefault(source);
    if svc.apiKey == "" then BatchOutcome(texts, svc, None)
    else if src == target then BatchOutcome(texts, svc, None)
    else
      var slots := Slots(svc.cache, texts, target);
      var uncached := MissItems(texts, slots);
      assert (exists i :: 0 <= i < |texts| && !IsCached(svc.cache, texts[i], target)) <==> |uncached| != 0 by {
        if i :| 0 <= i < |texts| && !IsCached(svc.cache, texts[i], target) {
          assert MissRank(slots, i) < |uncached|;
        }
        if |uncached| != 0 {
          OpenSlotExists(slots);
        }
      }
      if |uncached| == 0 then
        BatchOutcome(Fill(slots, []), svc, None)
      else
        var call := Some(ProviderCall(Many(uncached), target, src));
        match reply
        case ProviderFailure => BatchOutcome(texts, svc, call)
        case ProviderSuccess(translations) =>
          var cache := WriteBack(svc.cache, texts, slots, translations, target);
          assert MissKeys(texts, slots, target) !! svc.cache.Keys;
          assert Extends(svc.cache, cache) by {
            forall k | k in svc.cache ensures cache[k] == svc.cache[k] {
              WriteBackKeepsOthers(svc.cache, texts, slots, translations, target, k);
            }
          }
          assert MissesStored(svc.cache, cache, texts, target, translations) by {
            forall i | 0 <= i < |texts| && slots[i].None? && LastMiss(texts, slots, i)
              ensures MissRank(slots, i) < |translations|
                   && cache[CacheKey(texts[i], target)] == translations[MissRank(slots, i)]
            {
              WriteBackLastWins(svc.cache, texts, slots, translations, target, i);
            }
          }
          BatchOutcome(Fill(slots, translations), svc.(cache := cache), call)
  }
}
