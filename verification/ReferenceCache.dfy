/**
 The registry of prepared voice references: a four-entry, content-addressed, least-recently-used cache.

 SHA-256 is taken to be injective, so a key is the hashed payload itself: the audio bytes, a separator
 and the transcript's UTF-8 bytes.  Loading, encoding and embedding the audio is one abstract function.
 */
module ReferenceCache {
  import opened Wrappers

  type Bytes = seq<int>

  const MAX_ENTRIES: nat := 4

  /** NUL, "voicebox-qwen-reference-text", NUL. */
  const SEPARATOR: Bytes := [0, 118, 111, 105, 99, 101, 98, 111, 120, 45, 113, 119, 101, 110, 45, 114, 101, 102,
                             101, 114, 101, 110, 99, 101, 45, 116, 101, 120, 116, 0]

  datatype Conditioning<A> = Conditioning(key: Bytes, text: Bytes, artifacts: A)

  datatype Call = Call(audio: Bytes, suffix: string, text: Bytes)

  datatype CacheError = KeyCollision

  function CacheKey(audio: Bytes, text: Bytes): Bytes {
    audio + SEPARATOR + text
  }

  /** What preparing a reference costs: decode by suffix, encode, tokenize, embed. */
  type Preparation<!A> = (Bytes, string, Bytes) -> A

  function Fresh<A>(prepare: Preparation<A>, call: Call): Conditioning<A> {
    Conditioning(CacheKey(call.audio, call.text), call.text, prepare(call.audio, call.suffix, call.text))
  }

  /** Same key and same transcript mean the same audio bytes, so the transcript check makes a hit sound. */
  lemma KeyAndTextFixAudio(a: Bytes, b: Bytes, text: Bytes)
    requires CacheKey(a, text) == CacheKey(b, text)
    ensures a == b
  {
    var x, y := CacheKey(a, text), CacheKey(b, text);
    assert a == x[..|a|] && b == y[..|b|];
  }

  /** The key alone does not: two different references share one key. */
  lemma KeyAloneIsAmbiguous()
    ensures exists a, s, b, t :: a != b && s != t && CacheKey(a, s) == CacheKey(b, t)
  {
    var a, s, b, t := [1], [2] + SEPARATOR + [3], [1] + SEPARATOR + [2], [3];
    assert |a| != |b|;
    assert CacheKey(a, s) == [1] + SEPARATOR + [2] + SEPARATOR + [3] == CacheKey(b, t);
  }

  // ---- The registry: an ordered dictionary, least recently used first ----

  function Keys<A>(registry: seq<Conditioning<A>>): (keys: seq<Bytes>)
    ensures |keys| == |registry| && forall i :: 0 <= i < |keys| ==> keys[i] == registry[i].key
  {
    seq(|registry|, i requires 0 <= i < |registry| => registry[i].key)
  }

  predicate Distinct<T(==)>(s: seq<T>) {
    forall i, j :: 0 <= i < j < |s| ==> s[i] != s[j]
  }

  function Without<T(==)>(s: seq<T>, x: T): seq<T> {
    if s == [] then [] else (if s[0] == x then [] else [s[0]]) + Without(s[1..], x)
  }

  function LastFew<T>(s: seq<T>): seq<T> {
    if |s| <= MAX_ENTRIES then s else s[|s| - MAX_ENTRIES..]
  }

  /** The distinct elements of a history, ordered by their last occurrence. */
  function ByLastUse<T(==)>(history: seq<T>): seq<T> {
    if history == [] then []
    else
      var last := history[|history| - 1];
      Without(ByLastUse(history[..|history| - 1]), last) + [last]
  }

  lemma {:induction false} WithoutMembers<T>(s: seq<T>, x: T)
    ensures forall y :: y in Without(s, x) <==> y in s && y != x
    ensures x !in s ==> Without(s, x) == s
  {
    if s != [] {
      WithoutMembers(s[1..], x);
      assert s == [s[0]] + s[1..];
    }
  }

  lemma {:induction false} WithoutDistinct<T>(s: seq<T>, x: T)
    requires Distinct(s)
    ensures Distinct(Without(s, x))
    ensures x in s ==> |Without(s, x)| == |s| - 1
  {
    if s != [] {
      var tail := s[1..];
      assert forall i :: 0 <= i < |tail| ==> tail[i] == s[i + 1];
      assert s[0] !in tail;
      WithoutMembers(tail, x);
      WithoutDistinct(tail, x);
      assert s[0] == x ==> Without(s, x) == tail;
    }
  }

  lemma LastFewOfSuffix<T>(front: seq<T>, back: seq<T>)
    requires |back| >= MAX_ENTRIES
    ensures LastFew(front + back) == LastFew(back)
  {
  }

  lemma {:induction false} WithoutConcat<T>(a: seq<T>, b: seq<T>, x: T)
    ensures Without(a + b, x) == Without(a, x) + Without(b, x)
  {
    if a == [] {
      assert a + b == b;
    } else {
      WithoutConcat(a[1..], b, x);
      var kept := if a[0] == x then [] else [a[0]];
      assert (a + b)[0] == a[0] && (a + b)[1..] == a[1..] + b;
      Associates(kept, Without(a[1..], x), Without(b, x));
    }
  }

  lemma Associates<T>(a: seq<T>, b: seq<T>, c: seq<T>)
    ensures a + (b + c) == a + b + c
  {
  }

  lemma {:induction false} ByLastUseDistinct<T>(history: seq<T>)
    ensures Distinct(ByLastUse(history))
  {
    if history != [] {
      var last := history[|history| - 1];
      ByLastUseDistinct(history[..|history| - 1]);
      WithoutMembers(ByLastUse(history[..|history| - 1]), last);
      WithoutDistinct(ByLastUse(history[..|history| - 1]), last);
    }
  }

  /** Keeping only the last four entries commutes with touching one of them or adding a new one. */
  lemma TouchCommutesWithEviction<T>(all: seq<T>, x: T)
    requires Distinct(all)
    ensures LastFew(Without(all, x) + [x]) == LastFew(Without(LastFew(all), x) + [x])
  {
    if |all| > MAX_ENTRIES {
      var older, kept := all[..|all| - MAX_ENTRIES], LastFew(all);
      assert all == older + kept;
      WithoutConcat(older, kept, x);
      WithoutMembers(kept, x);
      WithoutDistinct(kept, x);
      assert Without(all, x) + [x] == Without(older, x) + (Without(kept, x) + [x]);
      LastFewOfSuffix(Without(older, x), Without(kept, x) + [x]);
    }
  }

  // ---- One call ----

  /** The outcome of one call, and the registry it leaves. */
  function PrepareStep<A(==)>(prepare: Preparation<A>, registry: seq<Conditioning<A>>, call: Call)
    : (Result<Conditioning<A>, CacheError>, seq<Conditioning<A>>)
  {
    var key := CacheKey(call.audio, call.text);
    match Lookup(registry, key)
    case Some(existing) =>
      if existing.text != call.text then (Err(KeyCollision), registry)
      else (Ok(existing), Without(registry, existing) + [existing])
    case None =>
      var entry := Fresh(prepare, call);
      (Ok(entry), LastFew(registry + [entry]))
  }

  function Lookup<A>(registry: seq<Conditioning<A>>, key: Bytes): (found: Option<Conditioning<A>>)
    ensures found.Some? ==> found.value in registry && found.value.key == key
    ensures found.None? <==> key !in Keys(registry)
  {
    if registry == [] then None
    else if registry[0].key == key then
      assert Keys(registry)[0] == key;
      Some(registry[0])
    else
      assert Keys(registry) == [registry[0].key] + Keys(registry[1..]);
      Lookup(registry[1..], key)
  }

  lemma {:induction false} WithoutFirst<A>(registry: seq<Conditioning<A>>, entry: Conditioning<A>)
    requires Distinct(Keys(registry)) && registry != [] && registry[0] == entry
    ensures Without(registry, entry) == registry[1..]
    ensures Without(Keys(registry), entry.key) == Keys(registry)[1..]
  {
    var keys := Keys(registry);
    assert forall i :: 0 <= i < |registry[1..]| ==> registry[1..][i].key == keys[1..][i] && keys[1..][i] == keys[i + 1];
    assert entry.key !in keys[1..] && entry !in registry[1..];
    WithoutMembers(keys[1..], entry.key);
    WithoutMembers(registry[1..], entry);
  }

  lemma {:induction false} KeysWithout<A>(registry: seq<Conditioning<A>>, entry: Conditioning<A>)
    requires Distinct(Keys(registry)) && entry in registry
    ensures Keys(Without(registry, entry)) == Without(Keys(registry), entry.key)
  {
    var keys := Keys(registry);
    assert keys[1..] == Keys(registry[1..]);
    if registry[0] == entry {
      WithoutFirst(registry, entry);
    } else {
      var i :| 0 <= i < |registry| && registry[i] == entry;
      assert registry[1..][i - 1] == entry;
      KeysWithout(registry[1..], entry);
      assert keys[0] != entry.key;
    }
  }

  // ---- Any run of calls ----

  function RegistryAfter<A(==)>(prepare: Preparation<A>, history: seq<Call>): seq<Conditioning<A>> {
    if history == [] then []
    else PrepareStep(prepare, RegistryAfter(prepare, history[..|history| - 1]), history[|history| - 1]).1
  }

  /** The keys that were served, in order; a refused call serves none. */
  function Served<A(==)>(prepare: Preparation<A>, history: seq<Call>): seq<Bytes> {
    if history == [] then []
    else
      var before := history[..|history| - 1];
      var call := history[|history| - 1];
      Served(prepare, before)
        + (if PrepareStep(prepare, RegistryAfter(prepare, before), call).0.Ok?
           then [CacheKey(call.audio, call.text)] else [])
  }

  /** One answered call moves its key to the recent end, evicting at most one other. */
  lemma StepTouches<A>(prepare: Preparation<A>, registry: seq<Conditioning<A>>, call: Call)
    requires Distinct(Keys(registry)) && PrepareStep(prepare, registry, call).0.Ok? && |registry| <= MAX_ENTRIES
    ensures Keys(PrepareStep(prepare, registry, call).1)
         == LastFew(Without(Keys(registry), CacheKey(call.audio, call.text)) + [CacheKey(call.audio, call.text)])
  {
    var key := CacheKey(call.audio, call.text);
    WithoutMembers(Keys(registry), key);
    WithoutDistinct(Keys(registry), key);
    match Lookup(registry, key)
    case Some(existing) => HitTouches(registry, existing);
    case None => assert Keys(registry + [Fresh(prepare, call)]) == Keys(registry) + [key];
  }

  lemma {:induction false} HitTouches<A>(registry: seq<Conditioning<A>>, existing: Conditioning<A>)
    requires Distinct(Keys(registry)) && existing in registry && |registry| <= MAX_ENTRIES
    ensures Keys(Without(registry, existing) + [existing])
         == LastFew(Without(Keys(registry), existing.key) + [existing.key])
  {
    KeysWithout(registry, existing);
    WithoutDistinct(Keys(registry), existing.key);
    var i :| 0 <= i < |registry| && registry[i] == existing;
    assert Keys(registry)[i] == existing.key;
    KeysAppend(Without(registry, existing), existing);
  }

  lemma KeysAppend<A>(registry: seq<Conditioning<A>>, entry: Conditioning<A>)
    ensures Keys(registry + [entry]) == Keys(registry) + [entry.key]
  {
  }

  /** The registry always holds the four most recently served keys, least recent first. */
  lemma {:induction false} RegistryIsMostRecent<A>(prepare: Preparation<A>, history: seq<Call>)
    ensures Keys(RegistryAfter(prepare, history)) == LastFew(ByLastUse(Served(prepare, history)))
    ensures |RegistryAfter(prepare, history)| <= MAX_ENTRIES
    ensures Distinct(Keys(RegistryAfter(prepare, history)))
  {
    ByLastUseDistinct(Served(prepare, history));
    if history != [] {
      var before := history[..|history| - 1];
      var call := history[|history| - 1];
      RegistryIsMostRecent(prepare, before);
      var registry := RegistryAfter(prepare, before);
      var key := CacheKey(call.audio, call.text);
      var served := Served(prepare, before);
      if PrepareStep(prepare, registry, call).0.Ok? {
        ByLastUseDistinct(served);
        StepTouches(prepare, registry, call);
        TouchCommutesWithEviction(ByLastUse(served), key);
        assert (served + [key])[..|served|] == served;
        assert |Keys(RegistryAfter(prepare, history))| <= MAX_ENTRIES;
      } else {
        assert served + [] == served;
      }
    }
  }

  /** Every entry is what some earlier call, with the entry's key and transcript, prepared. */
  lemma {:induction false} EntriesWerePrepared<A>(prepare: Preparation<A>, history: seq<Call>, entry: Conditioning<A>)
    requires entry in RegistryAfter(prepare, history)
    ensures exists call :: call in history && entry == Fresh(prepare, call)
  {
    var before := history[..|history| - 1];
    var call := history[|history| - 1];
    var registry := RegistryAfter(prepare, before);
    if entry in registry {
      EntriesWerePrepared(prepare, before, entry);
      var earlier :| earlier in before && entry == Fresh(prepare, earlier);
      assert earlier in history;
    } else {
      match Lookup(registry, CacheKey(call.audio, call.text)) {
        case Some(existing) => WithoutMembers(registry, existing);
        case None =>
      }
      assert call in history && entry == Fresh(prepare, call);
    }
  }

  ghost predicate SuffixIndependent<A(!new)>(prepare: Preparation<A>) {
    forall audio, s, t, text :: prepare(audio, s, text) == prepare(audio, t, text)
  }

  /**
   After any history, an answered call gets what preparing it afresh would give, as long as decoding does not
   look at the file suffix; and a call is refused only when its key is held under another transcript.
   */
  lemma HitEqualsMiss<A(!new)>(prepare: Preparation<A>, history: seq<Call>, call: Call)
    requires SuffixIndependent(prepare)
    ensures var (result, _) := PrepareStep(prepare, RegistryAfter(prepare, history), call);
            match result
            case Ok(entry) => entry == Fresh(prepare, call)
            case Err(_) => exists earlier :: earlier in history && earlier.text != call.text
                             && CacheKey(earlier.audio, earlier.text) == CacheKey(call.audio, call.text)
  {
    var registry := RegistryAfter(prepare, history);
    match Lookup(registry, CacheKey(call.audio, call.text))
    case Some(existing) =>
      EntriesWerePrepared(prepare, history, existing);
      var earlier :| earlier in history && existing == Fresh(prepare, earlier);
      if existing.text == call.text {
        KeyAndTextFixAudio(earlier.audio, call.audio, call.text);
      }
    case None =>
  }

  /** The key leaves the file suffix out, so a decoder that heeds it gets the first suffix's result. */
  lemma SuffixIsIgnoredOnAHit<A>(prepare: Preparation<A>, audio: Bytes, first: string, second: string, text: Bytes)
    ensures PrepareStep(prepare, RegistryAfter(prepare, [Call(audio, first, text)]), Call(audio, second, text)).0
         == Ok(Fresh(prepare, Call(audio, first, text)))
  {
  }

  /** What a call is answered with after a history, a refusal left aside, is what preparing it afresh would give. */
  ghost predicate AnswersAreFresh<A(!new)>(prepare: Preparation<A>) {
    forall history: seq<Call>, call: Call :: AnswerIsFresh(prepare, history, call)
  }

  ghost predicate AnswerIsFresh<A>(prepare: Preparation<A>, history: seq<Call>, call: Call) {
    var answer := PrepareStep(prepare, RegistryAfter(prepare, history), call).0;
    answer.Ok? ==> answer.value == Fresh(prepare, call)
  }

  /** Exactly when a hit always gives what a miss would: when decoding does not look at the file suffix. */
  lemma FreshAnswersExactly<A(!new)>(prepare: Preparation<A>)
    ensures AnswersAreFresh(prepare) <==> SuffixIndependent(prepare)
  {
    if SuffixIndependent(prepare) {
      forall history, call ensures AnswerIsFresh(prepare, history, call) {
        HitEqualsMiss(prepare, history, call);
      }
    }
    if AnswersAreFresh(prepare) {
      forall audio, s, t, text ensures prepare(audio, s, text) == prepare(audio, t, text) {
        SuffixIsIgnoredOnAHit(prepare, audio, s, t, text);
        assert AnswerIsFresh(prepare, [Call(audio, s, text)], Call(audio, t, text));
      }
    }
  }

  // ---- The registry object ----

  class ReferenceRegistry<A(==)> {
    const prepare: Preparation<A>
    var entries: seq<Conditioning<A>>

    constructor (prepare: Preparation<A>)
      ensures entries == [] && this.prepare == prepare
    {
      this.prepare := prepare;
      entries := [];
    }

    method PrepareReference(call: Call) returns (result: Result<Conditioning<A>, CacheError>)
      requires |entries| <= MAX_ENTRIES
      modifies this`entries
      ensures (result, entries) == PrepareStep(prepare, old(entries), call)
      ensures |entries| <= MAX_ENTRIES
    {
      var key := CacheKey(call.audio, call.text);
      var existing := Lookup(entries, key);
      if existing.Some? {
        if existing.value.text != call.text {
          return Err(KeyCollision);
        }
        WithoutShrinks(entries, existing.value);
        entries := Without(entries, existing.value) + [existing.value];
        return Ok(existing.value);
      }
      var entry := Fresh(prepare, call);
      Register(entry);
      result := Ok(entry);
    }

    /** Appends an entry, then drops entries from the front until at most four remain. */
    method Register(entry: Conditioning<A>)
      modifies this`entries
      ensures entries == LastFew(old(entries) + [entry])
    {
      entries := entries + [entry];
      ghost var all := entries;
      ghost var dropped := 0;
      while |entries| > MAX_ENTRIES
        invariant 0 <= dropped <= |all| && entries == all[dropped..]
        invariant dropped == 0 || |entries| >= MAX_ENTRIES
      {
        entries := entries[1..];
        dropped := dropped + 1;
      }
    }

    method Clear() returns (cleared: nat)
      modifies this`entries
      ensures entries == [] && cleared == |old(entries)|
    {
      cleared := |entries|;
      entries := [];
    }
  }

  lemma {:induction false} WithoutShrinks<T>(s: seq<T>, x: T)
    requires x in s
    ensures |Without(s, x)| < |s|
  {
    if s[0] == x {
      WithoutNoLonger(s[1..], x);
    } else {
      WithoutShrinks(s[1..], x);
    }
  }

  lemma {:induction false} WithoutNoLonger<T>(s: seq<T>, x: T)
    ensures |Without(s, x)| <= |s|
  {
    if s != [] {
      WithoutNoLonger(s[1..], x);
    }
  }
}
