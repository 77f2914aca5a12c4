/**
 The tensor operations of the Gated DeltaNet reference: shapes, grouped heads, the two token
 loops and the cached operator, each tied to the row recurrence of `DeltaRows`.
 */
module DeltaTensors {
  import opened Arithmetic
  import opened Common
  import opened DeltaRows

  /** Tensors carry their shape, so an empty first axis does not lose the other ones. */
  datatype Raw2 = Tensor2(d0: nat, d1: nat, at: seq<Vec>)
  datatype Raw3 = Tensor3(d0: nat, d1: nat, d2: nat, at: seq<Mat>)

  predicate Shaped2(t: Raw2) {
    |t.at| == t.d0 && Rows(t.at, t.d1)
  }

  predicate Shaped3(t: Raw3) {
    |t.at| == t.d0 && forall i :: 0 <= i < t.d0 ==> |t.at[i]| == t.d1 && Rows(t.at[i], t.d2)
  }

  type Tensor2 = t: Raw2 | Shaped2(t) witness Tensor2(0, 0, [])
  type Tensor3 = t: Raw3 | Shaped3(t) witness Tensor3(0, 0, 0, [])

  /** Keys and queries `[T,H,K]`, decays and betas `[T,HV]`, and the output scale. */
  datatype Coefficients = Coefficients(keys: Tensor3, queries: Tensor3, decays: Tensor2, betas: Tensor2, scale: real)

  datatype Operator = Operator(transition: Tensor3, responses: Tensor3)

  datatype Propagation = Propagation(states: seq<Tensor3>, outputs: seq<Tensor2>)

  predicate SameShape(a: Tensor3, b: Tensor3) {
    a.d0 == b.d0 && a.d1 == b.d1 && a.d2 == b.d2
  }

  /** What both token loops demand of the coefficients for a given number of value heads. */
  predicate Agree(c: Coefficients, valueHeads: nat) {
    && SameShape(c.keys, c.queries)
    && c.decays.d0 == c.keys.d0 && c.decays.d1 == valueHeads
    && c.betas.d0 == c.keys.d0 && c.betas.d1 == valueHeads
    && c.keys.d1 != 0 && valueHeads % c.keys.d1 == 0
  }

  /** The key head that value head `h` shares. */
  function GroupOf(h: nat, keyHeads: nat, valueHeads: nat): (g: nat)
    requires keyHeads != 0 && valueHeads % keyHeads == 0 && h < valueHeads
    ensures g < keyHeads
  {
    GroupBound(h, keyHeads, valueHeads / keyHeads);
    h / (valueHeads / keyHeads)
  }

  lemma GroupBound(h: nat, keyHeads: nat, copies: nat)
    requires h < keyHeads * copies
    ensures copies != 0 && h / copies < keyHeads
  {
  }

  function ExpandGroupedHeads(x: Tensor3, valueHeads: nat): (r: Result<Tensor3>)
    ensures r.Ok? <==> x.d1 != 0 && valueHeads % x.d1 == 0
    ensures r.Ok? ==> r.value.d0 == x.d0 && r.value.d1 == valueHeads && r.value.d2 == x.d2
    ensures r.Ok? ==> forall t, h :: 0 <= t < x.d0 && 0 <= h < valueHeads ==>
      r.value.at[t][h] == x.at[t][GroupOf(h, x.d1, valueHeads)]
  {
    if x.d1 == 0 || valueHeads % x.d1 != 0 then
      Result<Tensor3>.Err("value-head count must be divisible by key-head count")
    else
      Ok(Tensor3(x.d0, valueHeads, x.d2,
        seq(x.d0, t requires 0 <= t < x.d0 =>
          seq(valueHeads, h requires 0 <= h < valueHeads => x.at[t][GroupOf(h, x.d1, valueHeads)]))))
  }

  /** Expansion repeats every head in place: head `g` becomes the `copies` heads from `g * copies` on. */
  lemma ExpansionRepeatsHeads(x: Tensor3, valueHeads: nat, t: nat, g: nat, j: nat)
    requires x.d1 != 0 && valueHeads % x.d1 == 0 && t < x.d0 && g < x.d1 && j < valueHeads / x.d1
    ensures ExpandGroupedHeads(x, valueHeads).Ok? && g * (valueHeads / x.d1) + j < valueHeads
    ensures ExpandGroupedHeads(x, valueHeads).value.at[t][g * (valueHeads / x.d1) + j] == x.at[t][g]
  {
    var copies := valueHeads / x.d1;
    var h := g * copies + j;
    assert valueHeads == copies * x.d1;
    MultiplesOrdered(g, x.d1, copies);
    DivisionIsUnique(h, copies, g, j);
  }

  /** The token sequence one value head sees. */
  function HeadTokens(c: Coefficients, valueHeads: nat, h: nat): (ts: seq<Token>)
    requires Agree(c, valueHeads) && h < valueHeads
    ensures |ts| == c.keys.d0 && TokensOf(ts, c.keys.d2)
  {
    var g := GroupOf(h, c.keys.d1, valueHeads);
    seq(c.keys.d0, t requires 0 <= t < c.keys.d0 =>
      Token(c.keys.at[t][g], c.queries.at[t][g], c.decays.at[t][h], c.betas.at[t][h]))
  }

  /** The state after `n` tokens of step-by-step propagation. */
  function StateAfter(initial: Tensor3, c: Coefficients, n: nat): (s: Tensor3)
    requires Agree(c, initial.d0) && initial.d2 == c.keys.d2 && n <= c.keys.d0
    ensures SameShape(s, initial)
  {
    Tensor3(initial.d0, initial.d1, initial.d2,
      seq(initial.d0, h requires 0 <= h < initial.d0 =>
        seq(initial.d1, v requires 0 <= v < initial.d1 =>
          RunRow(initial.at[h][v], HeadTokens(c, initial.d0, h)[..n]))))
  }

  /** The output effect at token `t` of step-by-step propagation. */
  function OutputAt(initial: Tensor3, c: Coefficients, t: nat): (o: Tensor2)
    requires Agree(c, initial.d0) && initial.d2 == c.keys.d2 && t < c.keys.d0
    ensures o.d0 == initial.d0 && o.d1 == initial.d1
  {
    Tensor2(initial.d0, initial.d1,
      seq(initial.d0, h requires 0 <= h < initial.d0 =>
        seq(initial.d1, v requires 0 <= v < initial.d1 =>
          OutputRow(initial.at[h][v], HeadTokens(c, initial.d0, h), t, c.scale))))
  }

  /** `gdn_state_delta_step` for one token with already expanded keys. */
  function StateDeltaStep(state: Tensor3, key: Mat, decay: Vec, beta: Vec): (r: Result<Tensor3>)
    ensures r.Ok? <==> |key| == |decay| == |beta| == state.d0 && Rows(key, state.d2)
    ensures r.Ok? ==> SameShape(r.value, state)
    ensures r.Ok? ==> forall h, v :: 0 <= h < state.d0 && 0 <= v < state.d1 ==>
      r.value.at[h][v] == StepRow(state.at[h][v], Token(key[h], [], decay[h], beta[h]))
  {
    if |key| != state.d0 || !Rows(key, state.d2) then
      Result<Tensor3>.Err("state and expanded key dimensions do not agree")
    else if |decay| != state.d0 || |beta| != state.d0 then
      Result<Tensor3>.Err("log_decay and beta must contain one scalar per value head")
    else
      Ok(Tensor3(state.d0, state.d1, state.d2,
        seq(state.d0, h requires 0 <= h < state.d0 =>
          seq(state.d1, v requires 0 <= v < state.d1 =>
            StepRow(state.at[h][v], Token(key[h], [], decay[h], beta[h]))))))
  }

  /** The einsum `hvk,hk->hv` of a state with one query per head, scaled. */
  function ReadState(state: Tensor3, query: Mat, scale: real): (o: Tensor2)
    requires |query| == state.d0 && Rows(query, state.d2)
    ensures o.d0 == state.d0 && o.d1 == state.d1
  {
    Tensor2(state.d0, state.d1,
      seq(state.d0, h requires 0 <= h < state.d0 =>
        seq(state.d1, v requires 0 <= v < state.d1 => Output(state.at[h][v], query[h], scale))))
  }

  lemma NoTokens(initial: Tensor3, c: Coefficients)
    requires Agree(c, initial.d0) && initial.d2 == c.keys.d2
    ensures StateAfter(initial, c, 0) == initial
  {
    var s := StateAfter(initial, c, 0);
    forall h | 0 <= h < initial.d0 ensures s.at[h] == initial.at[h] {
      assert HeadTokens(c, initial.d0, h)[..0] == [];
    }
  }

  /**
   The recurrence of the states: value head `h` steps with the key of its group and its own decay and
   beta. The query plays no part in a step.
   */
  lemma StateRecurrence(initial: Tensor3, c: Coefficients, t: nat, h: nat, v: nat)
    requires Agree(c, initial.d0) && initial.d2 == c.keys.d2 && t < c.keys.d0 && h < initial.d0 && v < initial.d1
    ensures StateAfter(initial, c, 0) == initial
    ensures var g := GroupOf(h, c.keys.d1, initial.d0);
      StateAfter(initial, c, t + 1).at[h][v] ==
      StepRow(StateAfter(initial, c, t).at[h][v],
        Token(c.keys.at[t][g], c.queries.at[t][g], c.decays.at[t][h], c.betas.at[t][h]))
  {
    NoTokens(initial, c);
    var ts := HeadTokens(c, initial.d0, h);
    assert ts[..t + 1][..t] == ts[..t] && ts[..t + 1][t] == ts[t];
  }

  /** The outputs: the query of the head's group reads the state right after its token. */
  lemma OutputRecurrence(initial: Tensor3, c: Coefficients, t: nat, h: nat, v: nat)
    requires Agree(c, initial.d0) && initial.d2 == c.keys.d2 && t < c.keys.d0 && h < initial.d0 && v < initial.d1
    ensures var g := GroupOf(h, c.keys.d1, initial.d0);
      OutputAt(initial, c, t).at[h][v] ==
      Output(StateAfter(initial, c, t + 1).at[h][v], c.queries.at[t][g], c.scale)
  {
    var g, ts := GroupOf(h, c.keys.d1, initial.d0), HeadTokens(c, initial.d0, h);
    assert ts[t].query == c.queries.at[t][g];
  }

  lemma StateAfterNext(initial: Tensor3, c: Coefficients, n: nat, key: Mat, next: Tensor3)
    requires Agree(c, initial.d0) && initial.d2 == c.keys.d2 && n < c.keys.d0
    requires |key| == initial.d0
    requires forall h :: 0 <= h < initial.d0 ==> key[h] == HeadTokens(c, initial.d0, h)[n].key
    requires Ok(next) == StateDeltaStep(StateAfter(initial, c, n), key, c.decays.at[n], c.betas.at[n])
    ensures next == StateAfter(initial, c, n + 1)
  {
    var after, state := StateAfter(initial, c, n + 1), StateAfter(initial, c, n);
    forall h | 0 <= h < initial.d0 ensures next.at[h] == after.at[h] {
      var ts := HeadTokens(c, initial.d0, h);
      assert ts[..n + 1][..n] == ts[..n];
      forall v | 0 <= v < initial.d1 ensures next.at[h][v] == after.at[h][v] {
        QueryIsUnused(state.at[h][v], ts[n], []);
      }
    }
  }

  lemma QueryIsUnused(row: Vec, t: Token, query: Vec)
    requires |row| == |t.key|
    ensures StepRow(row, t.(query := query)) == StepRow(row, t)
  {
  }

  lemma ReadIsOutput(initial: Tensor3, c: Coefficients, t: nat, query: Mat)
    requires Agree(c, initial.d0) && initial.d2 == c.keys.d2 && t < c.keys.d0
    requires |query| == initial.d0 && Rows(query, initial.d2)
    requires forall h :: 0 <= h < initial.d0 ==> query[h] == HeadTokens(c, initial.d0, h)[t].query
    ensures ReadState(StateAfter(initial, c, t + 1), query, c.scale) == OutputAt(initial, c, t)
  {
    var left, right := ReadState(StateAfter(initial, c, t + 1), query, c.scale), OutputAt(initial, c, t);
    forall h | 0 <= h < initial.d0 ensures left.at[h] == right.at[h] {
      assert |left.at[h]| == |right.at[h]|;
    }
  }

  /** Step-by-step propagation: the state and the output effect at every token. */
  method PropagateStateDelta(initial: Tensor3, c: Coefficients) returns (r: Result<Propagation>)
    ensures r.Ok? <==> Agree(c, initial.d0) && initial.d2 == c.keys.d2
    ensures r.Ok? ==>
      && |r.value.states| == |r.value.outputs| == c.keys.d0
      && forall t :: 0 <= t < c.keys.d0 ==>
        r.value.states[t] == StateAfter(initial, c, t + 1) && r.value.outputs[t] == OutputAt(initial, c, t)
  {
    if !SameShape(c.keys, c.queries) {
      return Err("keys and queries must have matching [T,H,K] shapes");
    }
    if initial.d2 != c.keys.d2 {
      return Err("state, key, and query widths must agree");
    }
    if c.decays.d0 != c.keys.d0 || c.decays.d1 != initial.d0 {
      return Err("log_decays must have shape [T,HV]");
    }
    if c.betas.d0 != c.keys.d0 || c.betas.d1 != initial.d0 {
      return Err("betas must have shape [T,HV]");
    }
    var keys, queries := ExpandGroupedHeads(c.keys, initial.d0), ExpandGroupedHeads(c.queries, initial.d0);
    if keys.Err? {
      return Err(keys.reason);
    }
    var p := PropagateTokens(initial, c, keys.value, queries.value);
    return Ok(p);
  }

  /** The expanded keys and queries give every head the tokens of its group. */
  predicate Expanded(c: Coefficients, valueHeads: nat, keys: Tensor3, queries: Tensor3)
    requires Agree(c, valueHeads)
  {
    Ok(keys) == ExpandGroupedHeads(c.keys, valueHeads) && Ok(queries) == ExpandGroupedHeads(c.queries, valueHeads)
  }

  /** The state after token `t` and the output that reads it. */
  ghost predicate RecordedAt(state: Tensor3, output: Tensor2, initial: Tensor3, c: Coefficients, t: nat)
    requires Agree(c, initial.d0) && initial.d2 == c.keys.d2 && t < c.keys.d0
  {
    state == StateAfter(initial, c, t + 1) && output == OutputAt(initial, c, t)
  }

  /** One token: step the state, then read it. */
  method PropagateToken(ghost initial: Tensor3, state: Tensor3, c: Coefficients, keys: Tensor3, queries: Tensor3,
                        t: nat)
    returns (next: Tensor3, output: Tensor2)
    requires Agree(c, initial.d0) && initial.d2 == c.keys.d2 && Expanded(c, initial.d0, keys, queries)
    requires t < c.keys.d0 && state == StateAfter(initial, c, t)
    ensures RecordedAt(next, output, initial, c, t)
  {
    var stepped := StateDeltaStep(state, keys.at[t], c.decays.at[t], c.betas.at[t]);
    StateAfterNext(initial, c, t, keys.at[t], stepped.value);
    next := stepped.value;
    ReadIsOutput(initial, c, t, queries.at[t]);
    output := ReadState(next, queries.at[t], c.scale);
  }

  method PropagateTokens(initial: Tensor3, c: Coefficients, keys: Tensor3, queries: Tensor3) returns (p: Propagation)
    requires Agree(c, initial.d0) && initial.d2 == c.keys.d2 && Expanded(c, initial.d0, keys, queries)
    ensures |p.states| == |p.outputs| == c.keys.d0
    ensures forall t :: 0 <= t < c.keys.d0 ==>
      p.states[t] == StateAfter(initial, c, t + 1) && p.outputs[t] == OutputAt(initial, c, t)
  {
    var state: Tensor3 := initial;
    NoTokens(initial, c);
    var states: seq<Tensor3>, outputs: seq<Tensor2> := [], [];
    for t := 0 to c.keys.d0
      invariant state == StateAfter(initial, c, t)
      invariant |states| == |outputs| == t
      invariant forall i :: 0 <= i < t ==> RecordedAt(states[i], outputs[i], initial, c, i)
    {
      var next, output := PropagateToken(initial, state, c, keys, queries, t);
      state, states, outputs := next, states + [next], outputs + [output];
    }
    return Propagation(states, outputs);
  }

  /** The operator a block should be cached as: every head's transition and output responses. */
  function OperatorOf(c: Coefficients, valueHeads: nat): (o: Operator)
    requires Agree(c, valueHeads)
    ensures o.transition.d0 == valueHeads && o.transition.d1 == o.transition.d2 == c.keys.d2
    ensures o.responses.d0 == c.keys.d0 && o.responses.d1 == valueHeads && o.responses.d2 == c.keys.d2
  {
    Operator(TransitionAfter(c, valueHeads, c.keys.d0),
      Tensor3(c.keys.d0, valueHeads, c.keys.d2,
        seq(c.keys.d0, t requires 0 <= t < c.keys.d0 => ResponseAt(c, valueHeads, t))))
  }

  function TransitionAfter(c: Coefficients, valueHeads: nat, n: nat): (m: Tensor3)
    requires Agree(c, valueHeads) && n <= c.keys.d0
    ensures m.d0 == valueHeads && m.d1 == m.d2 == c.keys.d2
  {
    Tensor3(valueHeads, c.keys.d2, c.keys.d2,
      seq(valueHeads, h requires 0 <= h < valueHeads => Transition(HeadTokens(c, valueHeads, h)[..n], c.keys.d2)))
  }

  function ResponseAt(c: Coefficients, valueHeads: nat, t: nat): (m: Mat)
    requires Agree(c, valueHeads) && t < c.keys.d0
    ensures |m| == valueHeads && Rows(m, c.keys.d2)
  {
    seq(valueHeads, h requires 0 <= h < valueHeads => Responses(HeadTokens(c, valueHeads, h), c.keys.d2, c.scale)[t])
  }

  /** The rank-one update of every head's transition for one token. */
  function RankOneUpdate(m: Tensor3, key: Mat, decay: Vec, beta: Vec): (r: Tensor3)
    requires |key| == |decay| == |beta| == m.d0 && Rows(key, m.d2)
    ensures SameShape(r, m)
  {
    Tensor3(m.d0, m.d1, m.d2,
      seq(m.d0, h requires 0 <= h < m.d0 =>
        seq(m.d1, k requires 0 <= k < m.d1 => RankOneRow(m.at[h][k], Token(key[h], [], decay[h], beta[h])))))
  }

  lemma TransitionAfterNext(c: Coefficients, valueHeads: nat, n: nat, key: Mat)
    requires Agree(c, valueHeads) && n < c.keys.d0 && |key| == valueHeads
    requires forall h :: 0 <= h < valueHeads ==> key[h] == HeadTokens(c, valueHeads, h)[n].key
    ensures RankOneUpdate(TransitionAfter(c, valueHeads, n), key, c.decays.at[n], c.betas.at[n])
         == TransitionAfter(c, valueHeads, n + 1)
  {
    var before, after := TransitionAfter(c, valueHeads, n), TransitionAfter(c, valueHeads, n + 1);
    var next := RankOneUpdate(before, key, c.decays.at[n], c.betas.at[n]);
    forall h | 0 <= h < valueHeads ensures next.at[h] == after.at[h] {
      var ts := HeadTokens(c, valueHeads, h);
      assert ts[..n + 1][..n] == ts[..n];
      forall k | 0 <= k < c.keys.d2 ensures next.at[h][k] == after.at[h][k] {
        var row := before.at[h][k];
        RankOneIsStep(row, Token(key[h], [], c.decays.at[n][h], c.betas.at[n][h]));
        QueryIsUnused(row, ts[n], []);
      }
    }
  }

  lemma ReadIsResponse(c: Coefficients, valueHeads: nat, t: nat, query: Mat)
    requires Agree(c, valueHeads) && t < c.keys.d0 && |query| == valueHeads
    requires forall h :: 0 <= h < valueHeads ==> query[h] == HeadTokens(c, valueHeads, h)[t].query
    ensures ReadState(TransitionAfter(c, valueHeads, t + 1), query, c.scale).at == ResponseAt(c, valueHeads, t)
  {
    var left, right := ReadState(TransitionAfter(c, valueHeads, t + 1), query, c.scale).at,
      ResponseAt(c, valueHeads, t);
    forall h | 0 <= h < valueHeads ensures left[h] == right[h] {
      assert |left[h]| == |right[h]|;
    }
  }

  /** The recurrence of the cached transition: it starts as the identity and every row steps with the keys. */
  lemma TransitionRecurrence(c: Coefficients, valueHeads: nat, t: nat, h: nat, k: nat)
    requires Agree(c, valueHeads) && t < c.keys.d0 && h < valueHeads && k < c.keys.d2
    ensures TransitionAfter(c, valueHeads, 0).at[h][k] == Unit(c.keys.d2, k)
    ensures var g := GroupOf(h, c.keys.d1, valueHeads);
      TransitionAfter(c, valueHeads, t + 1).at[h][k] ==
      StepRow(TransitionAfter(c, valueHeads, t).at[h][k],
        Token(c.keys.at[t][g], c.queries.at[t][g], c.decays.at[t][h], c.betas.at[t][h]))
  {
    NoUpdates(c, valueHeads);
    var ts := HeadTokens(c, valueHeads, h);
    assert ts[..t + 1][..t] == ts[..t] && ts[..t + 1][t] == ts[t];
  }

  /** The cached operator: the transition after the last token, and what every query reads from it on the way. */
  lemma OperatorReads(c: Coefficients, valueHeads: nat, t: nat, h: nat, k: nat)
    requires Agree(c, valueHeads) && t < c.keys.d0 && h < valueHeads && k < c.keys.d2
    ensures OperatorOf(c, valueHeads).transition == TransitionAfter(c, valueHeads, c.keys.d0)
    ensures var g := GroupOf(h, c.keys.d1, valueHeads);
      OperatorOf(c, valueHeads).responses.at[t][h][k] ==
      Output(TransitionAfter(c, valueHeads, t + 1).at[h][k], c.queries.at[t][g], c.scale)
  {
    var g, ts := GroupOf(h, c.keys.d1, valueHeads), HeadTokens(c, valueHeads, h);
    assert ts[t].query == c.queries.at[t][g];
    assert OperatorOf(c, valueHeads).responses.at[t] == ResponseAt(c, valueHeads, t);
  }

  /** One pass of rank-one updates over the block yields exactly its operator. */
  method BuildBlockDeltaOperator(c: Coefficients) returns (r: Result<Operator>)
    ensures r.Ok? <==> Agree(c, c.decays.d1)
    ensures r.Ok? ==> r.value == OperatorOf(c, c.decays.d1)
  {
    if !SameShape(c.keys, c.queries) {
      return Err("keys and queries must have matching [T,H,K] shapes");
    }
    if c.betas.d0 != c.decays.d0 || c.betas.d1 != c.decays.d1 {
      return Err("log_decays and betas must have matching [T,HV] shapes");
    }
    if c.decays.d0 != c.keys.d0 {
      return Err("coefficient and token counts must agree");
    }
    var valueHeads := c.decays.d1;
    var keys, queries := ExpandGroupedHeads(c.keys, valueHeads), ExpandGroupedHeads(c.queries, valueHeads);
    if keys.Err? {
      return Err(keys.reason);
    }
    var o := BuildTokens(c, valueHeads, keys.value, queries.value);
    return Ok(o);
  }

  lemma NoUpdates(c: Coefficients, valueHeads: nat)
    requires Agree(c, valueHeads)
    ensures TransitionAfter(c, valueHeads, 0).at == seq(valueHeads, _ => Identity(c.keys.d2))
  {
    var m := TransitionAfter(c, valueHeads, 0).at;
    forall h | 0 <= h < valueHeads ensures m[h] == Identity(c.keys.d2) {
      assert HeadTokens(c, valueHeads, h)[..0] == [];
    }
  }

  method BuildTokens(c: Coefficients, valueHeads: nat, keys: Tensor3, queries: Tensor3) returns (o: Operator)
    requires Agree(c, valueHeads) && Expanded(c, valueHeads, keys, queries)
    ensures o == OperatorOf(c, valueHeads)
  {
    var width := c.keys.d2;
    var transition: Tensor3 := Tensor3(valueHeads, width, width, seq(valueHeads, _ => Identity(width)));
    NoUpdates(c, valueHeads);
    var responses: seq<Mat> := [];
    for t := 0 to c.keys.d0
      invariant transition == TransitionAfter(c, valueHeads, t)
      invariant |responses| == t
      invariant forall i :: 0 <= i < t ==> responses[i] == ResponseAt(c, valueHeads, i)
    {
      TransitionAfterNext(c, valueHeads, t, keys.at[t]);
      transition := RankOneUpdate(transition, keys.at[t], c.decays.at[t], c.betas.at[t]);
      ReadIsResponse(c, valueHeads, t, queries.at[t]);
      responses := responses + [ReadState(transition, queries.at[t], c.scale).at];
    }
    assert responses == OperatorOf(c, valueHeads).responses.at;
    return Operator(transition, Tensor3(c.keys.d0, valueHeads, width, responses));
  }

  /** The size of an axis that two operands share; an axis of size one is repeated. */
  function Broadcast(a: nat, b: nat): Option<nat> {
    if a == b || b == 1 then Some(a) else if a == 1 then Some(b) else None
  }

  function Repeat<T>(s: seq<T>, n: nat): (r: seq<T>)
    requires |s| == n || |s| == 1
    ensures |r| == n && (|s| == n ==> r == s)
  {
    if |s| == n then s else seq(n, i => s[0])
  }

  /** The einsums `hvk,hkl->hvl` and `hvk,thk->thv` of a cached operator. */
  function ApplyBlockDeltaOperator(initial: Tensor3, o: Operator): (r: Result<(Tensor3, seq<Tensor2>)>)
    ensures r.Ok? <==>
      && o.transition.d0 == initial.d0 && o.transition.d1 == o.transition.d2 == initial.d2
      && Broadcast(initial.d0, o.responses.d1).Some? && Broadcast(initial.d2, o.responses.d2).Some?
  {
    if o.transition.d0 != initial.d0 || o.transition.d1 != initial.d2 || o.transition.d2 != initial.d2 then
      Result<(Tensor3, seq<Tensor2>)>.Err("state and block-transition dimensions do not agree")
    else if Broadcast(initial.d0, o.responses.d1).None? || Broadcast(initial.d2, o.responses.d2).None? then
      Result<(Tensor3, seq<Tensor2>)>.Err("state and output-response dimensions do not broadcast")
    else
      var final := Tensor3(initial.d0, initial.d1, initial.d2,
        seq(initial.d0, h requires 0 <= h < initial.d0 =>
          seq(initial.d1, v requires 0 <= v < initial.d1 =>
            VecMat(initial.at[h][v], o.transition.at[h], initial.d2))));
      Ok((final, seq(o.responses.d0, t requires 0 <= t < o.responses.d0 => AppliedOutput(initial, o, t))))
  }

  function AppliedOutput(initial: Tensor3, o: Operator, t: nat): (r: Tensor2)
    requires Broadcast(initial.d0, o.responses.d1).Some? && Broadcast(initial.d2, o.responses.d2).Some? &&
      t < o.responses.d0
  {
    var heads, width := Broadcast(initial.d0, o.responses.d1).value, Broadcast(initial.d2, o.responses.d2).value;
    var states, responses := Repeat(initial.at, heads), Repeat(o.responses.at[t], heads);
    Tensor2(heads, initial.d1,
      seq(heads, h requires 0 <= h < heads =>
        seq(initial.d1, v requires 0 <= v < initial.d1 =>
          Dot(Repeat(states[h][v], width), Repeat(responses[h], width)))))
  }

  /** A cached response with a single head serves every value head, and one with a single entry every entry. */
  lemma BroadcastReads(initial: Tensor3, o: Operator, t: nat, h: nat, v: nat)
    requires t < o.responses.d0 && h < initial.d0 && v < initial.d1 && o.responses.d1 in {1, initial.d0}
    requires o.responses.d2 in {1, initial.d2}
    ensures AppliedOutput(initial, o, t).d0 == initial.d0 && AppliedOutput(initial, o, t).d1 == initial.d1
    ensures var r := o.responses.at[t][if o.responses.d1 == initial.d0 then h else 0];
      AppliedOutput(initial, o, t).at[h][v] ==
      if |r| == initial.d2 then Dot(initial.at[h][v], r) else r[0] * Sum(initial.at[h][v])
  {
    var r := o.responses.at[t][if o.responses.d1 == initial.d0 then h else 0];
    if |r| != initial.d2 {
      DotConstant(initial.at[h][v], r[0]);
    }
  }

  function Sum(x: Vec): real {
    if |x| == 0 then 0.0 else x[0] + Sum(x[1..])
  }

  lemma {:induction false} DotConstant(x: Vec, c: real)
    ensures Dot(x, seq(|x|, i => c)) == c * Sum(x)
  {
    if |x| > 0 {
      assert seq(|x|, i => c)[1..] == seq(|x| - 1, i => c);
      DotConstant(x[1..], c);
    }
  }

  /**
   Applying the cached operator of a block gives the final state and every per-token output of
   step-by-step propagation, for every grouped-head layout and every incoming state difference.
   */
  lemma ApplyMatchesPropagation(initial: Tensor3, c: Coefficients)
    requires Agree(c, initial.d0) && initial.d2 == c.keys.d2
    ensures ApplyBlockDeltaOperator(initial, OperatorOf(c, initial.d0)).Ok?
    ensures ApplyBlockDeltaOperator(initial, OperatorOf(c, initial.d0)).value.0 == StateAfter(initial, c, c.keys.d0)
    ensures ApplyBlockDeltaOperator(initial, OperatorOf(c, initial.d0)).value.1
         == seq(c.keys.d0, t requires 0 <= t < c.keys.d0 => OutputAt(initial, c, t))
  {
    var o := OperatorOf(c, initial.d0);
    var applied := ApplyBlockDeltaOperator(initial, o).value;
    var final := StateAfter(initial, c, c.keys.d0);
    forall h | 0 <= h < initial.d0 ensures applied.0.at[h] == final.at[h] {
      var ts := HeadTokens(c, initial.d0, h);
      assert ts[..c.keys.d0] == ts;
      forall v | 0 <= v < initial.d1 ensures applied.0.at[h][v] == final.at[h][v] {
        OperatorIsExact(initial.at[h][v], ts, c.scale);
      }
    }
    forall t | 0 <= t < c.keys.d0 ensures AppliedOutput(initial, o, t) == OutputAt(initial, c, t) {
      AppliedOutputIsExact(initial, c, t);
    }
  }

  lemma AppliedOutputIsExact(initial: Tensor3, c: Coefficients, t: nat)
    requires Agree(c, initial.d0) && initial.d2 == c.keys.d2 && t < c.keys.d0
    ensures AppliedOutput(initial, OperatorOf(c, initial.d0), t) == OutputAt(initial, c, t)
  {
    var left, right := AppliedOutput(initial, OperatorOf(c, initial.d0), t), OutputAt(initial, c, t);
    forall h | 0 <= h < initial.d0 ensures left.at[h] == right.at[h] {
      forall v | 0 <= v < initial.d1 ensures left.at[h][v] == right.at[h][v] {
        ResponseIsExact(initial.at[h][v], HeadTokens(c, initial.d0, h), t, c.scale);
      }
    }
  }
}
