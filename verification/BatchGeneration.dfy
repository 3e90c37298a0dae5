/**
 The two-row batch loop for cloned voices.

 The network is abstract but row-local: each row has its own attention cache, and every function below
 sees one row only.  What remains is what the loop itself does with two rows at once: one shared step
 count, finished rows that keep stepping, per-row random counters, and trailing text padded to the
 longer row.
 */
module BatchGeneration {

  /** The row-local network and the settings that all rows share. */
  datatype Network<!H, !E, !L, !X, !K> = Network(
    talk: (H, E) -> (L, X, H),           // talker: cache and input to logits, last hidden state, cache
    predict: (X, seq<int>) -> L,         // code predictor: hidden state and this step's tokens to logits
    shapeTalker: (L, set<int>) -> L,     // suppression, repetition penalty over the row's ids, top-k/top-p
    shapeCode: L -> L,                   // top-k/top-p only
    greedy: L -> int,
    categorical: (L, K) -> int,
    key: (int, nat) -> K,                // the random key of (seed, counter)
    embed: (E, seq<int>) -> E,           // text embedding plus the codec embeddings of one step
    pad: E,
    eos: int,
    groups: nat,
    temperature: real)

  /** What one row brings to the batch. */
  datatype RowInput<H, E> = RowInput(seed: int, textTokens: nat, cache: H, input: E, trailing: seq<E>)

  /** One row of the loop's state. */
  datatype RowState<H, E> = RowState(
    cache: H, input: E, trailingIndex: nat, finished: bool, counter: nat,
    ids: seq<int>, codes: seq<seq<int>>)

  function Max(a: int, b: int): int { if a < b then b else a }

  function Min(a: int, b: int): int { if a < b then a else b }

  /** The most codes a row may have, from the caller's bound and the row's own text. */
  function TokenLimit(maxTokens: int, textTokens: nat): (limit: int)
  {
    Min(maxTokens, Max(75, textTokens * 6))
  }

  // ---- Sampling ----

  /** One draw of one row: the token, and the row's next counter. */
  function Draw<H, E, L, X, K>(net: Network<H, E, L, X, K>, logits: L, seed: int, counter: nat): (int, nat) {
    if net.temperature <= 0.0 then
      (net.greedy(logits), counter)
    else
      (net.categorical(logits, net.key(seed, counter)), counter + 1)
  }

  /** A draw for every row, each under its own key; the counters advance in place. */
  method SampleRows<H, E, L, X, K>(net: Network<H, E, L, X, K>, logits: seq<L>, seeds: seq<int>, counters: array<nat>)
    returns (tokens: seq<int>)
    requires |logits| == |seeds| == counters.Length
    modifies counters
    ensures |tokens| == |logits|
    ensures forall i :: 0 <= i < |logits| ==>
              (tokens[i], counters[i]) == Draw(net, logits[i], seeds[i], old(counters[i]))
  {
    if net.temperature <= 0.0 {
      tokens := seq(|logits|, i requires 0 <= i < |logits| => net.greedy(logits[i]));
      return;
    }
    tokens := [];
    for row := 0 to |logits|
      invariant |tokens| == row
      invariant forall i :: 0 <= i < row ==>
                  (tokens[i], counters[i]) == Draw(net, logits[i], seeds[i], old(counters[i]))
      invariant forall i :: row <= i < |logits| ==> counters[i] == old(counters[i])
    {
      var key := net.key(seeds[row], counters[row]);
      counters[row] := counters[row] + 1;
      tokens := tokens + [net.categorical(logits[row], key)];
    }
  }

  // ---- One row, on its own ----

  /** The remaining code groups of one step, drawn one after another. */
  function DrawGroups<H, E, L, X, K>(
      net: Network<H, E, L, X, K>, hidden: X, seed: int, tokens: seq<int>, counter: nat, n: nat): (seq<int>, nat)
  {
    if n == 0 then
      (tokens, counter)
    else
      var (previous, c) := DrawGroups(net, hidden, seed, tokens, counter, n - 1);
      var (token, c') := Draw(net, net.shapeCode(net.predict(hidden, previous)), seed, c);
      (previous + [token], c')
  }

  /**
   The text embedding that follows a step: past the last trailing position of the batch it is padding.
   `maxTrailing` is the longest trailing text in the batch; shorter rows are filled up with padding.
   */
  function TextEmbed<E>(pad: E, trailing: seq<E>, maxTrailing: nat, index: nat): E
    requires |trailing| <= maxTrailing
  {
    var clamped := Min(index, maxTrailing - 1);
    if clamped >= maxTrailing - 1 then pad
    else if clamped < |trailing| then trailing[clamped]
    else pad
  }

  /** One step of one row, in a batch whose longest trailing text has `maxTrailing` positions. */
  function Advance<H, E, L, X, K>(
      net: Network<H, E, L, X, K>, maxTrailing: nat, maxTokens: int, row: RowInput<H, E>, st: RowState<H, E>)
    : RowState<H, E>
    requires |row.trailing| <= maxTrailing && net.groups >= 1
  {
    var (logits, hidden, cache) := net.talk(st.cache, st.input);
    var (sampled, counter) := Draw(net, net.shapeTalker(logits, set id | id in st.ids), row.seed, st.counter);
    var first := if st.finished then net.eos else sampled;
    var finished := st.finished || first == net.eos;
    var (tokens, counter') := DrawGroups(net, hidden, row.seed, [first], counter, net.groups - 1);
    var text := TextEmbed(net.pad, row.trailing, maxTrailing, st.trailingIndex);
    var codes := if finished then st.codes else st.codes + [tokens];
    RowState(
      cache,
      net.embed(text, tokens),
      st.trailingIndex + (if finished then 0 else 1),
      finished || |codes| >= TokenLimit(maxTokens, row.textTokens),
      counter',
      if finished then st.ids else st.ids + [first],
      codes)
  }

  function Initial<H, E>(row: RowInput<H, E>): RowState<H, E> {
    RowState(row.cache, row.input, 0, false, 0, [], [])
  }

  /** A row after `n` steps. */
  function After<H, E, L, X, K>(
      net: Network<H, E, L, X, K>, maxTrailing: nat, maxTokens: int, row: RowInput<H, E>, n: nat): RowState<H, E>
    requires |row.trailing| <= maxTrailing && net.groups >= 1
  {
    if n == 0 then Initial(row)
    else Advance(net, maxTrailing, maxTokens, row, After(net, maxTrailing, maxTokens, row, n - 1))
  }

  /** The codes of a row that is given as many steps as its own limit allows. */
  function RowCodes<H, E, L, X, K>(
      net: Network<H, E, L, X, K>, maxTrailing: nat, maxTokens: int, row: RowInput<H, E>): seq<seq<int>>
    requires |row.trailing| <= maxTrailing && net.groups >= 1
  {
    After(net, maxTrailing, maxTokens, row, Max(0, TokenLimit(maxTokens, row.textTokens))).codes
  }

  /** A row generated in a batch of its own. */
  function AloneCodes<H, E, L, X, K>(net: Network<H, E, L, X, K>, maxTokens: int, row: RowInput<H, E>): seq<seq<int>>
    requires net.groups >= 1
  {
    RowCodes(net, |row.trailing|, maxTokens, row)
  }

  /** A finished row never appends again and never becomes unfinished. */
  lemma {:induction false} FinishedIsFinal<H, E, L, X, K>(
      net: Network<H, E, L, X, K>, maxTrailing: nat, maxTokens: int, row: RowInput<H, E>, m: nat, n: nat)
    requires |row.trailing| <= maxTrailing && net.groups >= 1 && m <= n
    requires After(net, maxTrailing, maxTokens, row, m).finished
    ensures After(net, maxTrailing, maxTokens, row, n).finished
    ensures After(net, maxTrailing, maxTokens, row, n).codes == After(net, maxTrailing, maxTokens, row, m).codes
    ensures After(net, maxTrailing, maxTokens, row, n).ids == After(net, maxTrailing, maxTokens, row, m).ids
  {
    if m < n {
      FinishedIsFinal(net, maxTrailing, maxTokens, row, m, n - 1);
    }
  }

  /** An unfinished row has appended at every step; so a row stops at or before its own limit. */
  lemma {:induction false} StopsAtItsLimit<H, E, L, X, K>(
      net: Network<H, E, L, X, K>, maxTrailing: nat, maxTokens: int, row: RowInput<H, E>, n: nat)
    requires |row.trailing| <= maxTrailing && net.groups >= 1
    requires TokenLimit(maxTokens, row.textTokens) >= 1
    ensures var st := After(net, maxTrailing, maxTokens, row, n);
            var limit := TokenLimit(maxTokens, row.textTokens);
            && |st.codes| == |st.ids| <= limit
            && (!st.finished ==> |st.codes| == n < limit)
  {
    if n > 0 {
      StopsAtItsLimit(net, maxTrailing, maxTokens, row, n - 1);
    }
  }

  /** The key schedule: at the start of step `n` the counter is `n * groups`, finished or not. */
  lemma {:induction false} KeySchedule<H, E, L, X, K>(
      net: Network<H, E, L, X, K>, maxTrailing: nat, maxTokens: int, row: RowInput<H, E>, n: nat)
    requires |row.trailing| <= maxTrailing && net.groups >= 1 && net.temperature > 0.0
    ensures After(net, maxTrailing, maxTokens, row, n).counter == n * net.groups
  {
    if n > 0 {
      KeySchedule(net, maxTrailing, maxTokens, row, n - 1);
      StepUsesEachGroup(net, maxTrailing, maxTokens, row, After(net, maxTrailing, maxTokens, row, n - 1));
      assert n * net.groups == (n - 1) * net.groups + net.groups;
    }
  }

  lemma {:induction false} StepUsesEachGroup<H, E, L, X, K>(
      net: Network<H, E, L, X, K>, maxTrailing: nat, maxTokens: int, row: RowInput<H, E>, st: RowState<H, E>)
    requires |row.trailing| <= maxTrailing && net.groups >= 1 && net.temperature > 0.0
    ensures Advance(net, maxTrailing, maxTokens, row, st).counter == st.counter + net.groups
  {
    var (logits, hidden, _) := net.talk(st.cache, st.input);
    var (sampled, counter) := Draw(net, net.shapeTalker(logits, set id | id in st.ids), row.seed, st.counter);
    var first := if st.finished then net.eos else sampled;
    GroupCounters(net, hidden, row.seed, [first], counter, net.groups - 1);
  }

  /** Within a step, group `k` is drawn `k` counters after the step's first draw. */
  lemma {:induction false} GroupCounters<H, E, L, X, K>(
      net: Network<H, E, L, X, K>, hidden: X, seed: int, tokens: seq<int>, counter: nat, n: nat)
    requires net.temperature > 0.0
    ensures DrawGroups(net, hidden, seed, tokens, counter, n).1 == counter + n
    ensures |DrawGroups(net, hidden, seed, tokens, counter, n).0| == |tokens| + n
  {
    if n > 0 {
      GroupCounters(net, hidden, seed, tokens, counter, n - 1);
    }
  }

  // ---- Non-interference ----

  /** When a longer companion cannot be noticed: exactly if this row's last trailing position is padding. */
  predicate CompanionInvisible<E(==)>(pad: E, trailing: seq<E>, maxTrailing: nat) {
    |trailing| == maxTrailing || trailing == [] || trailing[|trailing| - 1] == pad
  }

  lemma TrailingIndependence<E>(pad: E, trailing: seq<E>, maxTrailing: nat)
    requires |trailing| <= maxTrailing
    ensures CompanionInvisible(pad, trailing, maxTrailing)
       <==> forall i: nat :: TextEmbed(pad, trailing, maxTrailing, i) == TextEmbed(pad, trailing, |trailing|, i)
  {
    if !CompanionInvisible(pad, trailing, maxTrailing) {
      var last := |trailing| - 1;
      assert TextEmbed(pad, trailing, maxTrailing, last) == trailing[last];
      assert TextEmbed(pad, trailing, |trailing|, last) == pad;
    }
  }

  lemma {:induction false} RowIndependence<H, E, L, X, K>(
      net: Network<H, E, L, X, K>, maxTrailing: nat, maxTokens: int, row: RowInput<H, E>, n: nat)
    requires |row.trailing| <= maxTrailing && net.groups >= 1
    requires CompanionInvisible(net.pad, row.trailing, maxTrailing)
    ensures After(net, maxTrailing, maxTokens, row, n) == After(net, |row.trailing|, maxTokens, row, n)
  {
    if n > 0 {
      RowIndependence(net, maxTrailing, maxTokens, row, n - 1);
      TrailingIndependence(net.pad, row.trailing, maxTrailing);
    }
  }

  function MaxTrailing<H, E>(rows: seq<RowInput<H, E>>): (longest: nat)
    ensures forall i :: 0 <= i < |rows| ==> |rows[i].trailing| <= longest
    ensures rows != [] ==> exists i :: 0 <= i < |rows| && |rows[i].trailing| == longest
  {
    if rows == [] then 0
    else
      var rest := MaxTrailing(rows[1..]);
      assert forall i :: 1 <= i < |rows| ==> rows[i] == rows[1..][i - 1];
      if |rows[0].trailing| >= rest then |rows[0].trailing| else rest
  }

  /** The claim of the batch: a row's codes do not depend on which rows it shares the batch with. */
  lemma BatchNonInterference<H, E, L, X, K>(
      net: Network<H, E, L, X, K>, maxTokens: int, rows: seq<RowInput<H, E>>, i: nat)
    requires net.groups >= 1 && i < |rows|
    requires CompanionInvisible(net.pad, rows[i].trailing, MaxTrailing(rows))
    ensures RowCodes(net, MaxTrailing(rows), maxTokens, rows[i]) == AloneCodes(net, maxTokens, rows[i])
  {
    RowIndependence(net, MaxTrailing(rows), maxTokens, rows[i], Max(0, TokenLimit(maxTokens, rows[i].textTokens)));
  }

  /** A network that speaks whatever its last text embedding was, until that is `eos`. */
  function EchoNetwork(pad: int, eos: int): Network<int, int, int, int, int> {
    Network((h, e) => (e, e, h), (x, tokens) => x, (l, ids) => l, l => l, l => l, (l, k) => l,
            (seed, counter) => 0, (text, tokens) => text, pad, eos, 1, 0.0)
  }

  /** What the echoing row is fed at its `k`-th step. */
  function EchoInput(pad: int, row: RowInput<int, int>, maxTrailing: nat, k: nat): int
    requires |row.trailing| <= maxTrailing
  {
    if k == 0 then row.input else TextEmbed(pad, row.trailing, maxTrailing, k - 1)
  }

  function Echoed(pad: int, row: RowInput<int, int>, maxTrailing: nat, n: nat): seq<seq<int>>
    requires |row.trailing| <= maxTrailing
  {
    if n == 0 then [] else Echoed(pad, row, maxTrailing, n - 1) + [[EchoInput(pad, row, maxTrailing, n - 1)]]
  }

  lemma {:induction false} EchoCodes(
      pad: int, eos: int, maxTrailing: nat, maxTokens: int, row: RowInput<int, int>, n: nat)
    requires |row.trailing| <= maxTrailing && n <= TokenLimit(maxTokens, row.textTokens)
    requires eos != pad && eos != row.input && eos !in row.trailing
    ensures var st := After(EchoNetwork(pad, eos), maxTrailing, maxTokens, row, n);
            && st.codes == Echoed(pad, row, maxTrailing, n) && |st.codes| == n
            && (n < TokenLimit(maxTokens, row.textTokens) ==>
                  !st.finished && st.trailingIndex == n && st.input == EchoInput(pad, row, maxTrailing, n))
  {
    if n > 0 {
      EchoCodes(pad, eos, maxTrailing, maxTokens, row, n - 1);
      var net := EchoNetwork(pad, eos);
      var st := After(net, maxTrailing, maxTokens, row, n - 1);
      var spoken := EchoInput(pad, row, maxTrailing, n - 1);
      assert spoken != eos;
      assert DrawGroups(net, st.input, row.seed, [spoken], st.counter, 0) == ([spoken], st.counter);
    }
  }

  /** A number that does not occur. */
  function Above(values: seq<int>): (bound: int)
    ensures forall v :: v in values ==> v < bound
  {
    if values == [] then 0
    else
      assert values == [values[0]] + values[1..];
      Max(values[0] + 1, Above(values[1..]))
  }

  /** At the step after its trailing text, the echoing row tells whether its companion's text is longer. */
  lemma {:induction false} LongerCompanionShows(
      pad: int, maxTrailing: nat, maxTokens: int, row: RowInput<int, int>)
    requires |row.trailing| <= maxTrailing && !CompanionInvisible(pad, row.trailing, maxTrailing)
    requires |row.trailing| < TokenLimit(maxTokens, row.textTokens)
    ensures var net := EchoNetwork(pad, Above([pad, row.input] + row.trailing));
            RowCodes(net, maxTrailing, maxTokens, row) != RowCodes(net, |row.trailing|, maxTokens, row)
  {
    var eos, limit := Above([pad, row.input] + row.trailing), TokenLimit(maxTokens, row.textTokens);
    var values := [pad, row.input] + row.trailing;
    assert values[0] == pad && values[1] == row.input && pad in values && row.input in values;
    assert forall v :: v in row.trailing ==> v in values;
    EchoCodes(pad, eos, maxTrailing, maxTokens, row, limit);
    EchoCodes(pad, eos, |row.trailing|, maxTokens, row, limit);
    EchoedAt(pad, row, maxTrailing, limit, |row.trailing|);
    EchoedAt(pad, row, |row.trailing|, limit, |row.trailing|);
  }

  lemma {:induction false} EchoedAt(pad: int, row: RowInput<int, int>, maxTrailing: nat, n: nat, k: nat)
    requires |row.trailing| <= maxTrailing && k < n
    ensures |Echoed(pad, row, maxTrailing, n)| == n
    ensures Echoed(pad, row, maxTrailing, n)[k] == [EchoInput(pad, row, maxTrailing, k)]
  {
    if n > 1 {
      EchoedAt(pad, row, maxTrailing, n - 1, if k < n - 1 then k else 0);
    }
  }

  /** Up to the end of its own trailing text a row cannot tell how long its companion's is. */
  lemma {:induction false} SameWithinTrailing<H, E, L, X, K>(
      net: Network<H, E, L, X, K>, maxTrailing: nat, maxTokens: int, row: RowInput<H, E>, n: nat)
    requires |row.trailing| <= maxTrailing && net.groups >= 1 && n < |row.trailing|
    ensures After(net, maxTrailing, maxTokens, row, n) == After(net, |row.trailing|, maxTokens, row, n)
    ensures After(net, maxTrailing, maxTokens, row, n).trailingIndex <= n
  {
    if n > 0 {
      SameWithinTrailing(net, maxTrailing, maxTokens, row, n - 1);
      AdvanceWithin(net, maxTrailing, maxTokens, row, After(net, maxTrailing, maxTokens, row, n - 1));
    }
  }

  lemma {:induction false} SameCodesWithinTrailing<H, E, L, X, K>(
      net: Network<H, E, L, X, K>, maxTrailing: nat, maxTokens: int, row: RowInput<H, E>, n: nat)
    requires |row.trailing| <= maxTrailing && net.groups >= 1 && n <= |row.trailing|
    ensures After(net, maxTrailing, maxTokens, row, n).codes == After(net, |row.trailing|, maxTokens, row, n).codes
  {
    if n > 0 {
      SameWithinTrailing(net, maxTrailing, maxTokens, row, n - 1);
      CodesIgnorePadding(net, maxTrailing, maxTokens, row, After(net, maxTrailing, maxTokens, row, n - 1));
    }
  }

  lemma {:induction false} AdvanceWithin<H, E, L, X, K>(
      net: Network<H, E, L, X, K>, maxTrailing: nat, maxTokens: int, row: RowInput<H, E>, st: RowState<H, E>)
    requires |row.trailing| <= maxTrailing && net.groups >= 1 && st.trailingIndex + 1 < |row.trailing|
    ensures var next := Advance(net, maxTrailing, maxTokens, row, st);
            next == Advance(net, |row.trailing|, maxTokens, row, st) && next.trailingIndex <= st.trailingIndex + 1
  {
    SameEmbedding(net.pad, row.trailing, maxTrailing, st.trailingIndex);
  }

  /** The text that is fed back comes too late for the codes of its own step. */
  lemma {:induction false} CodesIgnorePadding<H, E, L, X, K>(
      net: Network<H, E, L, X, K>, maxTrailing: nat, maxTokens: int, row: RowInput<H, E>, st: RowState<H, E>)
    requires |row.trailing| <= maxTrailing && net.groups >= 1
    ensures Advance(net, maxTrailing, maxTokens, row, st).codes
         == Advance(net, |row.trailing|, maxTokens, row, st).codes
  {
  }

  lemma SameEmbedding<E>(pad: E, trailing: seq<E>, maxTrailing: nat, index: nat)
    requires |trailing| <= maxTrailing && index + 1 < |trailing|
    ensures TextEmbed(pad, trailing, maxTrailing, index) == TextEmbed(pad, trailing, |trailing|, index)
  {
  }

  /**
   Exactly when a row is independent of how long its companion's trailing text is, for every network: when its own
   text is as long, or ends in padding, or outlasts the row's token limit.
   */
  lemma NonInterferenceExactly(pad: int, maxTrailing: nat, maxTokens: int, row: RowInput<int, int>)
    requires |row.trailing| <= maxTrailing
    ensures (|| CompanionInvisible(pad, row.trailing, maxTrailing)
             || TokenLimit(maxTokens, row.textTokens) <= |row.trailing|) <==>
              forall net: Network<int, int, int, int, int> :: net.pad == pad && net.groups >= 1 ==>
                RowCodes(net, maxTrailing, maxTokens, row) == RowCodes(net, |row.trailing|, maxTokens, row)
  {
    var limit := Max(0, TokenLimit(maxTokens, row.textTokens));
    if CompanionInvisible(pad, row.trailing, maxTrailing) {
      forall net: Network<int, int, int, int, int> | net.pad == pad && net.groups >= 1
        ensures RowCodes(net, maxTrailing, maxTokens, row) == RowCodes(net, |row.trailing|, maxTokens, row)
      {
        RowIndependence(net, maxTrailing, maxTokens, row, limit);
      }
    } else if limit <= |row.trailing| {
      forall net: Network<int, int, int, int, int> | net.pad == pad && net.groups >= 1
        ensures RowCodes(net, maxTrailing, maxTokens, row) == RowCodes(net, |row.trailing|, maxTokens, row)
      {
        SameCodesWithinTrailing(net, maxTrailing, maxTokens, row, limit);
      }
    } else {
      LongerCompanionShows(pad, maxTrailing, maxTokens, row);
      assert EchoNetwork(pad, Above([pad, row.input] + row.trailing)).groups >= 1;
    }
  }

  // ---- What the cloned-voice preparer hands over ----

  /** The preparer's trailing text is a single padding position, for every row. */
  predicate AsPrepared<H, E(==)>(pad: E, rows: seq<RowInput<H, E>>) {
    forall r :: 0 <= r < |rows| ==> rows[r].trailing == [pad]
  }

  /** Prepared rows are independent: each gets the codes that it gets alone. */
  lemma PreparedRowsAreIndependent<H, E, L, X, K>(
      net: Network<H, E, L, X, K>, maxTokens: int, rows: seq<RowInput<H, E>>, i: nat)
    requires net.groups >= 1 && i < |rows| && AsPrepared(net.pad, rows)
    ensures RowCodes(net, MaxTrailing(rows), maxTokens, rows[i]) == AloneCodes(net, maxTokens, rows[i])
  {
    BatchNonInterference(net, maxTokens, rows, i);
  }

  /**
   However the rows are prepared, another row matters to row `i` by the length of its trailing text alone: neither
   its seed nor its text, cache, or time of completion does.
   */
  lemma OthersMatterByLengthOnly<H, E, L, X, K>(
      net: Network<H, E, L, X, K>, maxTokens: int, rows: seq<RowInput<H, E>>, others: seq<RowInput<H, E>>, i: nat)
    requires net.groups >= 1 && i < |rows| == |others| && others[i] == rows[i]
    requires forall r :: 0 <= r < |rows| ==> |others[r].trailing| == |rows[r].trailing|
    ensures RowCodes(net, MaxTrailing(others), maxTokens, others[i])
         == RowCodes(net, MaxTrailing(rows), maxTokens, rows[i])
  {
    SameLongest(rows, others);
  }

  lemma {:induction false} SameLongest<H, E>(rows: seq<RowInput<H, E>>, others: seq<RowInput<H, E>>)
    requires |rows| == |others|
    requires forall r :: 0 <= r < |rows| ==> |others[r].trailing| == |rows[r].trailing|
    ensures MaxTrailing(rows) == MaxTrailing(others)
  {
    if rows != [] {
      var k :| 0 <= k < |rows| && |rows[k].trailing| == MaxTrailing(rows);
      var m :| 0 <= m < |others| && |others[m].trailing| == MaxTrailing(others);
      assert |others[k].trailing| <= MaxTrailing(others) && |rows[m].trailing| <= MaxTrailing(rows);
    }
  }

  // ---- The batch loop ----

  predicate AllFinished(finished: seq<bool>) {
    forall i :: 0 <= i < |finished| ==> finished[i]
  }

  function LongestLimit<H, E>(maxTokens: int, rows: seq<RowInput<H, E>>): (longest: int)
    requires rows != []
    ensures forall i :: 0 <= i < |rows| ==> TokenLimit(maxTokens, rows[i].textTokens) <= longest
    ensures exists i :: 0 <= i < |rows| && TokenLimit(maxTokens, rows[i].textTokens) == longest
  {
    var own := TokenLimit(maxTokens, rows[0].textTokens);
    if |rows| == 1 then own
    else
      var rest := LongestLimit(maxTokens, rows[1..]);
      assert forall i :: 1 <= i < |rows| ==> rows[i] == rows[1..][i - 1];
      Max(own, rest)
  }

  /** Row by row, the code groups of one step: all rows advance together, one group at a time. */
  method DrawCodeGroups<H, E, L, X, K>(
      net: Network<H, E, L, X, K>, hidden: seq<X>, seeds: seq<int>, nextTokens: seq<int>, counters: array<nat>)
    returns (codeTokens: seq<seq<int>>)
    requires net.groups >= 1
    requires |hidden| == |seeds| == |nextTokens| == counters.Length
    modifies counters
    ensures |codeTokens| == |nextTokens|
    ensures forall r :: 0 <= r < |nextTokens| ==>
              (codeTokens[r], counters[r])
                == DrawGroups(net, hidden[r], seeds[r], [nextTokens[r]], old(counters[r]), net.groups - 1)
  {
    codeTokens := seq(|nextTokens|, r requires 0 <= r < |nextTokens| => [nextTokens[r]]);
    for group := 0 to net.groups - 1
      invariant |codeTokens| == |nextTokens|
      invariant forall r :: 0 <= r < |nextTokens| ==>
                  (codeTokens[r], counters[r])
                    == DrawGroups(net, hidden[r], seeds[r], [nextTokens[r]], old(counters[r]), group)
    {
      var previous := codeTokens;
      var logits := seq(|previous|, r requires 0 <= r < |previous| && |previous| == |hidden| =>
                          net.shapeCode(net.predict(hidden[r], previous[r])));
      var next := SampleRows(net, logits, seeds, counters);
      codeTokens := seq(|previous|, r requires 0 <= r < |previous| && |next| == |previous| => previous[r] + [next[r]]);
    }
  }

  /** The loop's variables, each indexed by row; the counters are a separate, mutable list. */
  datatype Batch<H, E> = Batch(
    caches: seq<H>, inputs: seq<E>, trailing: seq<nat>, finished: seq<bool>,
    ids: seq<seq<int>>, codes: seq<seq<seq<int>>>)
  {
    predicate Shaped(size: nat) {
      |caches| == |inputs| == |trailing| == |finished| == |ids| == |codes| == size
    }

    function Row(r: nat, counter: nat): RowState<H, E>
      requires Shaped(|codes|) && r < |codes|
    {
      RowState(caches[r], inputs[r], trailing[r], finished[r], counter, ids[r], codes[r])
    }
  }

  /** The end of a step: the rows still running record their codes, and stop at their limit. */
  method RecordCodes<H, E>(
      maxTokens: int, rows: seq<RowInput<H, E>>, ended: seq<bool>, nextTokens: seq<int>, codeTokens: seq<seq<int>>,
      idsBefore: seq<seq<int>>, codesBefore: seq<seq<seq<int>>>)
    returns (ids: seq<seq<int>>, codes: seq<seq<seq<int>>>, finished: seq<bool>)
    requires |rows| == |ended| == |nextTokens| == |codeTokens| == |idsBefore| == |codesBefore|
    ensures |ids| == |codes| == |finished| == |rows|
    ensures forall r :: 0 <= r < |rows| ==>
              && ids[r] == (if ended[r] then idsBefore[r] else idsBefore[r] + [nextTokens[r]])
              && codes[r] == (if ended[r] then codesBefore[r] else codesBefore[r] + [codeTokens[r]])
              && finished[r] == (ended[r] || |codes[r]| >= TokenLimit(maxTokens, rows[r].textTokens))
  {
    ids, codes, finished := idsBefore, codesBefore, ended;
    for row := 0 to |rows|
      invariant |ids| == |codes| == |finished| == |rows|
      invariant forall r :: row <= r < |rows| ==>
                  codes[r] == codesBefore[r] && ids[r] == idsBefore[r] && finished[r] == ended[r]
      invariant forall r :: 0 <= r < row ==>
                  && ids[r] == (if ended[r] then idsBefore[r] else idsBefore[r] + [nextTokens[r]])
                  && codes[r] == (if ended[r] then codesBefore[r] else codesBefore[r] + [codeTokens[r]])
                  && finished[r] == (ended[r] || |codes[r]| >= TokenLimit(maxTokens, rows[r].textTokens))
    {
      if !finished[row] {
        ids := ids[row := ids[row] + [nextTokens[row]]];
        codes := codes[row := codes[row] + [codeTokens[row]]];
        if |codes[row]| >= TokenLimit(maxTokens, rows[row].textTokens) {
          finished := finished[row := true];
        }
      }
    }
  }

  /** No row's trailing text is longer than what the batch is filled up to. */
  predicate AllWithin<H, E>(rows: seq<RowInput<H, E>>, maxTrailing: nat) {
    forall r :: 0 <= r < |rows| ==> |rows[r].trailing| <= maxTrailing
  }

  predicate SeedsOf<H, E>(rows: seq<RowInput<H, E>>, seeds: seq<int>)
    requires |seeds| == |rows|
  {
    forall r :: 0 <= r < |rows| ==> seeds[r] == rows[r].seed
  }

  /** Every row of `next` is the row of `batch` one step later. */
  ghost predicate Stepped<H, E, L, X, K>(
      net: Network<H, E, L, X, K>, maxTrailing: nat, maxTokens: int, rows: seq<RowInput<H, E>>,
      batch: Batch<H, E>, counters: seq<nat>, next: Batch<H, E>, nextCounters: seq<nat>)
    requires net.groups >= 1
    requires AllWithin(rows, maxTrailing)
  {
    && batch.Shaped(|rows|) && next.Shaped(|rows|)
    && |counters| == |nextCounters| == |rows|
    && forall r :: 0 <= r < |rows| ==>
         next.Row(r, nextCounters[r]) == Advance(net, maxTrailing, maxTokens, rows[r], batch.Row(r, counters[r]))
  }

  /** What a step's first draw gives one row: its hidden state, its cache, its first token, and its counter. */
  function FirstDraw<H, E, L, X, K>(net: Network<H, E, L, X, K>, seed: int, st: RowState<H, E>): (X, H, int, nat) {
    var (logits, hidden, cache) := net.talk(st.cache, st.input);
    var (sampled, counter) := Draw(net, net.shapeTalker(logits, set id | id in st.ids), seed, st.counter);
    (hidden, cache, if st.finished then net.eos else sampled, counter)
  }

  /** The talker's draw for all rows; a finished row draws too, and its token is replaced. */
  method DrawFirstTokens<H, E, L, X, K>(
      net: Network<H, E, L, X, K>, seeds: seq<int>, batch: Batch<H, E>, counters: array<nat>)
    returns (hidden: seq<X>, caches: seq<H>, nextTokens: seq<int>)
    requires batch.Shaped(|seeds|) && counters.Length == |seeds|
    modifies counters
    ensures |hidden| == |caches| == |nextTokens| == |seeds|
    ensures forall r :: 0 <= r < |seeds| ==>
              (hidden[r], caches[r], nextTokens[r], counters[r])
                == FirstDraw(net, seeds[r], batch.Row(r, old(counters[r])))
  {
    var size := |seeds|;
    var talked := seq(size, r requires 0 <= r < size && batch.Shaped(size) =>
      net.talk(batch.caches[r], batch.inputs[r]));
    var logits := seq(size, r requires 0 <= r < |talked| && batch.Shaped(|talked|) =>
                        net.shapeTalker(talked[r].0, set id | id in batch.ids[r]));
    hidden := seq(size, r requires 0 <= r < |talked| => talked[r].1);
    caches := seq(size, r requires 0 <= r < |talked| => talked[r].2);
    var sampled := SampleRows(net, logits, seeds, counters);
    nextTokens := seq(size, r requires 0 <= r < |sampled| && batch.Shaped(|sampled|) =>
                        if batch.finished[r] then net.eos else sampled[r]);
  }

  /** One step of the whole batch is one step of each row. */
  method AdvanceBatch<H, E, L, X, K>(
      net: Network<H, E, L, X, K>, maxTrailing: nat, maxTokens: int, rows: seq<RowInput<H, E>>,
      seeds: seq<int>, batch: Batch<H, E>, counters: array<nat>)
    returns (next: Batch<H, E>)
    requires net.groups >= 1
    requires batch.Shaped(|rows|) && counters.Length == |seeds| == |rows|
    requires AllWithin(rows, maxTrailing) && SeedsOf(rows, seeds)
    modifies counters
    ensures Stepped(net, maxTrailing, maxTokens, rows, batch, old(counters[..]), next, counters[..])
  {
    var size := |rows|;
    var hidden, caches, nextTokens := DrawFirstTokens(net, seeds, batch, counters);
    var ended := seq(size, r requires 0 <= r < |nextTokens| && batch.Shaped(|nextTokens|) =>
                       batch.finished[r] || nextTokens[r] == net.eos);
    var codeTokens := DrawCodeGroups(net, hidden, seeds, nextTokens, counters);
    var inputs := seq(size, r requires 0 <= r < |rows| && batch.Shaped(|rows|) && |codeTokens| == |rows|
                                       && |rows[r].trailing| <= maxTrailing =>
                        net.embed(TextEmbed(net.pad, rows[r].trailing, maxTrailing, batch.trailing[r]), codeTokens[r]));
    var trailing: seq<nat> := seq(size, r requires 0 <= r < |ended| && batch.Shaped(|ended|) =>
                                    batch.trailing[r] + (if ended[r] then 0 else 1));
    var ids, codes, finished := RecordCodes(maxTokens, rows, ended, nextTokens, codeTokens, batch.ids, batch.codes);
    next := Batch(caches, inputs, trailing, finished, ids, codes);
  }

  ghost predicate Reached<H, E, L, X, K>(
      net: Network<H, E, L, X, K>, maxTrailing: nat, maxTokens: int, rows: seq<RowInput<H, E>>,
      batch: Batch<H, E>, counters: seq<nat>, step: nat)
    requires net.groups >= 1
    requires AllWithin(rows, maxTrailing)
  {
    && batch.Shaped(|rows|)
    && |counters| == |rows|
    && forall r :: 0 <= r < |rows| ==>
         batch.Row(r, counters[r]) == After(net, maxTrailing, maxTokens, rows[r], step)
  }

  lemma ReachedNext<H, E, L, X, K>(
      net: Network<H, E, L, X, K>, maxTrailing: nat, maxTokens: int, rows: seq<RowInput<H, E>>,
      batch: Batch<H, E>, counters: seq<nat>, next: Batch<H, E>, nextCounters: seq<nat>, step: nat)
    requires net.groups >= 1
    requires AllWithin(rows, maxTrailing)
    requires Reached(net, maxTrailing, maxTokens, rows, batch, counters, step)
    requires Stepped(net, maxTrailing, maxTokens, rows, batch, counters, next, nextCounters)
    ensures Reached(net, maxTrailing, maxTokens, rows, next, nextCounters, step + 1)
  {
  }

  function InitialBatch<H, E>(rows: seq<RowInput<H, E>>): (batch: Batch<H, E>)
    ensures batch.Shaped(|rows|)
    ensures forall r :: 0 <= r < |rows| ==> batch.Row(r, 0) == Initial(rows[r])
  {
    var size := |rows|;
    Batch(
      seq(size, r requires 0 <= r < |rows| => rows[r].cache),
      seq(size, r requires 0 <= r < |rows| => rows[r].input),
      seq(size, r => 0), seq(size, r => false), seq(size, r => []), seq(size, r => []))
  }

  lemma InitialReached<H, E, L, X, K>(
      net: Network<H, E, L, X, K>, maxTrailing: nat, maxTokens: int, rows: seq<RowInput<H, E>>, counters: seq<nat>)
    requires net.groups >= 1 && |counters| == |rows|
    requires AllWithin(rows, maxTrailing) && forall r :: 0 <= r < |rows| ==> counters[r] == 0
    ensures Reached(net, maxTrailing, maxTokens, rows, InitialBatch(rows), counters, 0)
  {
  }

  /**
   The loop over steps.  Each row ends with the codes of a row that ran on its own account; rows as the preparer
   hands them over end with exactly what each of them generates alone.
   */
  method GenerateBatch<H, E, L, X, K>(net: Network<H, E, L, X, K>, maxTokens: int, rows: seq<RowInput<H, E>>)
    returns (generated: seq<seq<seq<int>>>)
    requires net.groups >= 1 && 1 <= |rows| <= 2
    ensures |generated| == |rows|
    ensures forall r :: 0 <= r < |rows| ==>
              generated[r] == RowCodes(net, MaxTrailing(rows), maxTokens, rows[r])
    ensures forall r :: 0 <= r < |rows| ==> |generated[r]| <= Max(0, TokenLimit(maxTokens, rows[r].textTokens))
    ensures AsPrepared(net.pad, rows) ==>
              forall r :: 0 <= r < |rows| ==> generated[r] == AloneCodes(net, maxTokens, rows[r])
  {
    var maxTrailing := MaxTrailing(rows);
    var seeds := seq(|rows|, r requires 0 <= r < |rows| => rows[r].seed);
    var counters := new nat[|rows|](_ => 0);
    var batch, step := RunSteps(net, maxTrailing, maxTokens, LongestLimit(maxTokens, rows), rows, seeds, counters);
    generated := batch.codes;
    BatchComplete(net, maxTrailing, maxTokens, rows, batch, counters[..], step);
    forall r | 0 <= r < |rows| && AsPrepared(net.pad, rows)
      ensures generated[r] == AloneCodes(net, maxTokens, rows[r])
    {
      PreparedRowsAreIndependent(net, maxTokens, rows, r);
    }
  }

  /** One step takes every row from where it is alone after `step` steps to where it is after the next. */
  method RunStep<H, E, L, X, K>(
      net: Network<H, E, L, X, K>, maxTrailing: nat, maxTokens: int, rows: seq<RowInput<H, E>>,
      seeds: seq<int>, batch: Batch<H, E>, counters: array<nat>, ghost step: nat)
    returns (next: Batch<H, E>)
    requires net.groups >= 1 && counters.Length == |seeds| == |rows|
    requires AllWithin(rows, maxTrailing) && SeedsOf(rows, seeds)
    requires Reached(net, maxTrailing, maxTokens, rows, batch, counters[..], step)
    modifies counters
    ensures Reached(net, maxTrailing, maxTokens, rows, next, counters[..], step + 1)
  {
    ghost var before := counters[..];
    next := AdvanceBatch(net, maxTrailing, maxTokens, rows, seeds, batch, counters);
    ReachedNext(net, maxTrailing, maxTokens, rows, batch, before, next, counters[..], step);
  }

  method RunSteps<H, E, L, X, K>(
      net: Network<H, E, L, X, K>, maxTrailing: nat, maxTokens: int, steps: int, rows: seq<RowInput<H, E>>,
      seeds: seq<int>, counters: array<nat>)
    returns (batch: Batch<H, E>, step: nat)
    requires net.groups >= 1 && rows != [] && counters.Length == |seeds| == |rows|
    requires AllWithin(rows, maxTrailing) && SeedsOf(rows, seeds)
    requires forall r :: 0 <= r < |rows| ==> counters[r] == 0
    modifies counters
    ensures Reached(net, maxTrailing, maxTokens, rows, batch, counters[..], step)
    ensures step <= Max(0, steps)
    ensures step >= steps || AllFinished(batch.finished)
  {
    batch := InitialBatch(rows);
    assert |counters[..]| == |rows| && forall r :: 0 <= r < |rows| ==> counters[..][r] == 0;
    InitialReached(net, maxTrailing, maxTokens, rows, counters[..]);
    step := 0;
    while step < steps && !AllFinished(batch.finished)
      invariant 0 <= step <= Max(0, steps)
      invariant Reached(net, maxTrailing, maxTokens, rows, batch, counters[..], step)
    {
      batch := RunStep(net, maxTrailing, maxTokens, rows, seeds, batch, counters, step);
      step := step + 1;
    }
  }

  lemma BatchComplete<H, E, L, X, K>(
      net: Network<H, E, L, X, K>, maxTrailing: nat, maxTokens: int, rows: seq<RowInput<H, E>>,
      batch: Batch<H, E>, counters: seq<nat>, step: nat)
    requires net.groups >= 1 && rows != []
    requires AllWithin(rows, maxTrailing)
    requires Reached(net, maxTrailing, maxTokens, rows, batch, counters, step)
    requires step <= Max(0, LongestLimit(maxTokens, rows))
    requires step >= LongestLimit(maxTokens, rows) || AllFinished(batch.finished)
    ensures forall r :: 0 <= r < |rows| ==>
              && batch.codes[r] == RowCodes(net, maxTrailing, maxTokens, rows[r])
              && |batch.codes[r]| <= Max(0, TokenLimit(maxTokens, rows[r].textTokens))
  {
    forall r | 0 <= r < |rows|
      ensures batch.codes[r] == RowCodes(net, maxTrailing, maxTokens, rows[r])
      ensures |batch.codes[r]| <= Max(0, TokenLimit(maxTokens, rows[r].textTokens))
    {
      assert batch.Row(r, counters[r]) == After(net, maxTrailing, maxTokens, rows[r], step);
      StepsSuffice(net, maxTrailing, maxTokens, rows[r], step);
    }
  }

  /** Running on past a row's end changes nothing of what it generated. */
  lemma StepsSuffice<H, E, L, X, K>(
      net: Network<H, E, L, X, K>, maxTrailing: nat, maxTokens: int, row: RowInput<H, E>, step: nat)
    requires |row.trailing| <= maxTrailing && net.groups >= 1
    requires After(net, maxTrailing, maxTokens, row, step).finished
          || step >= Max(0, TokenLimit(maxTokens, row.textTokens))
    requires maxTokens < 1 ==> step == 0
    ensures After(net, maxTrailing, maxTokens, row, step).codes == RowCodes(net, maxTrailing, maxTokens, row)
    ensures |RowCodes(net, maxTrailing, maxTokens, row)| <= Max(0, TokenLimit(maxTokens, row.textTokens))
  {
    var limit := TokenLimit(maxTokens, row.textTokens);
    if limit >= 1 {
      StopsAtItsLimit(net, maxTrailing, maxTokens, row, limit);
      if step <= limit {
        if After(net, maxTrailing, maxTokens, row, step).finished {
          FinishedIsFinal(net, maxTrailing, maxTokens, row, step, limit);
        }
      } else {
        FinishedIsFinal(net, maxTrailing, maxTokens, row, limit, step);
      }
    }
  }
}
