/** Scaled dot-product attention routing: gates, backend priority, head-dimension padding, the
    scale of the original head dimension and the output slice. Values are reals; the exponential,
    the inverse square root and the kernels are given by what they compute. */
module Attention {
  import opened Options

  datatype DType = Float | Half | BFloat16 | Boolean | OtherType

  /** A dense 4-D tensor (batch, heads, rows, cols); entries matter only inside the sizes. */
  datatype Tensor = Tensor(dtype: DType, onGcu: bool, unitStride: bool,
                           batch: nat, heads: nat, rows: nat, cols: nat,
                           at: (nat, nat, nat, nat) -> real)

  /** An additive bias can be minus infinity, which removes the key. */
  datatype Bias = NegInf | Finite(value: real)

  datatype Mask =
    | NoMask
    | BoolMask(keep: (nat, nat, nat, nat) -> bool)
    | AdditiveMask(dtype: DType, bias: (nat, nat, nat, nat) -> Bias)

  datatype Params = Params(query: Tensor, key: Tensor, value: Tensor, mask: Mask, maskUnitStride: bool,
                           isCausal: bool, scale: Option<real>, enableGqa: bool)

  /** Global switches, the hardware, and the real functions the kernels use. */
  datatype Env = Env(flashEnabled: bool, memEfficientEnabled: bool, mathEnabled: bool, isS60: bool,
                     exp: real -> real, invSqrt: nat -> real)

  datatype Backend = FlashAttention | EfficientAttention | MathAttention | NoBackend

  datatype Failure = InvalidInput | NoViableBackend

  // ------------------------------------------------------------------ attention

  /** How a kernel finds the key/value head (or batch entry) of a query head (or batch entry). */
  datatype Lookup = Same | Broadcasting | Grouped

  function Find(how: Lookup, queries: nat, x: nat, size: nat): nat {
    match how
    case Same => x
    case Broadcasting => if size == 1 then 0 else x
    case Grouped => if size == 0 || queries / size == 0 then 0 else x / (queries / size)
  }

  /** One attention problem: operands, mask, causal diagonal shifted by `shift`, scale, and how
      key/value heads and batch entries are found. */
  datatype Problem = Problem(q: Tensor, k: Tensor, v: Tensor, mask: Mask, causal: bool, shift: int, scale: real,
                             heads: Lookup, batches: Lookup, exp: real -> real)

  function KeyAt(p: Problem, b: nat, h: nat, j: nat, c: nat): real {
    p.k.at(Find(p.batches, p.q.batch, b, p.k.batch), Find(p.heads, p.q.heads, h, p.k.heads), j, c)
  }

  function ValueAt(p: Problem, b: nat, h: nat, j: nat, c: nat): real {
    p.v.at(Find(p.batches, p.q.batch, b, p.v.batch), Find(p.heads, p.q.heads, h, p.v.heads), j, c)
  }

  function Times(x: real, y: real): (r: real)
    ensures x == 0.0 ==> r == 0.0
  {
    x * y
  }

  /** Dot product of query row i and key row j over the first `n` columns. */
  function RowDot(p: Problem, b: nat, h: nat, i: nat, j: nat, n: nat): real {
    if n == 0 then 0.0
    else RowDot(p, b, h, i, j, n - 1) + Times(p.q.at(b, h, i, n - 1), KeyAt(p, b, h, j, n - 1))
  }

  function Score(p: Problem, b: nat, h: nat, i: nat, j: nat): real {
    Times(p.scale, RowDot(p, b, h, i, j, p.q.cols))
  }

  /** The bias the mask and the causal flag add at query row i and key j. */
  function BiasAt(p: Problem, b: nat, h: nat, i: nat, j: nat): Bias {
    if p.causal && j > i + p.shift then NegInf
    else
      match p.mask
      case NoMask => Finite(0.0)
      case BoolMask(keep) => if keep(b, h, i, j) then Finite(0.0) else NegInf
      case AdditiveMask(_, bias) => bias(b, h, i, j)
  }

  /** Unnormalised softmax weight of key j. */
  function Weight(p: Problem, b: nat, h: nat, i: nat, j: nat): real {
    var bias := BiasAt(p, b, h, i, j);
    if bias.NegInf? then 0.0 else p.exp(Score(p, b, h, i, j) + bias.value)
  }

  /** Sum of the weights of the first `n` keys. */
  function WeightSum(p: Problem, b: nat, h: nat, i: nat, n: nat): real {
    if n == 0 then 0.0 else WeightSum(p, b, h, i, n - 1) + Weight(p, b, h, i, n - 1)
  }

  /** Weighted sum of column c of the first `n` value rows. */
  function ValueSum(p: Problem, b: nat, h: nat, i: nat, c: nat, n: nat): real {
    if n == 0 then 0.0
    else ValueSum(p, b, h, i, c, n - 1) + Times(Weight(p, b, h, i, n - 1), ValueAt(p, b, h, n - 1, c))
  }

  /** Softmax-weighted average of the value rows; 0 when every key is masked out. */
  function Attend(p: Problem, b: nat, h: nat, i: nat, c: nat): real {
    var total := WeightSum(p, b, h, i, p.k.rows);
    if total == 0.0 then 0.0 else ValueSum(p, b, h, i, c, p.k.rows) / total
  }

  function Output(p: Problem): Tensor {
    p.q.(cols := p.v.cols, at := (b: nat, h: nat, i: nat, c: nat) => Attend(p, b, h, i, c))
  }

  function ScaleOf(env: Env, q: Tensor, scale: Option<real>): real {
    if scale.Some? then scale.value else env.invSqrt(q.cols)
  }

  /** Reference attention on the caller's arguments: mask, top-left causal diagonal, grouped or
      broadcast heads, scale of the query's own head dimension. */
  function Reference(env: Env, p: Params): Problem {
    Problem(p.query, p.key, p.value, p.mask, p.isCausal, 0, ScaleOf(env, p.query, p.scale),
            if p.enableGqa then Grouped else Broadcasting, Broadcasting, env.exp)
  }

  // -------------------------------------------------------------------- kernels

  /** The flash kernel: no mask, lower-right causal diagonal, key/value heads grouped by the head
      counts, an explicit scale. */
  function FlashKernel(env: Env, q: Tensor, k: Tensor, v: Tensor, causal: bool, scale: real): Tensor {
    Output(Problem(q, k, v, NoMask, causal, k.rows - q.rows, scale, Grouped, Same, env.exp))
  }

  /** The efficient kernel: any mask, equal head counts, its own default scale. */
  function EfficientKernel(env: Env, q: Tensor, k: Tensor, v: Tensor, mask: Mask, causal: bool, scale: Option<real>): Tensor {
    Output(Problem(q, k, v, mask, causal, 0, ScaleOf(env, q, scale), Same, Same, env.exp))
  }

  /** The math kernel: reference attention with an additive mask. */
  function MathKernel(env: Env, p: Params): Tensor {
    Output(Reference(env, p))
  }

  // ---------------------------------------------------------------------- gates

  predicate HeadDimOk(p: Params) {
    p.query.cols == p.key.cols && p.query.cols == p.value.cols && p.query.cols <= 256
  }

  predicate CausalSquareOk(p: Params) {
    !(p.isCausal && p.query.rows != p.key.rows)
  }

  predicate LowPrecisionOk(env: Env, p: Params) {
    && p.query.dtype == p.key.dtype == p.value.dtype
    && (p.query.dtype.Half? || p.query.dtype.BFloat16? || (env.isS60 && p.query.dtype.Float?))
  }

  predicate GroupedHeadsOk(p: Params) {
    p.key.heads == p.value.heads && p.key.heads > 0 && p.query.heads % p.key.heads == 0
  }

  predicate BatchAndHeadsOk(p: Params, supportsGqa: bool) {
    && p.query.batch == p.key.batch == p.value.batch
    && (if p.enableGqa && supportsGqa then GroupedHeadsOk(p) else p.query.heads == p.key.heads == p.value.heads)
  }

  predicate NonzeroSequences(p: Params) { p.query.rows != 0 && p.key.rows != 0 }

  predicate LastDimUnit(p: Params, ignoreSingleton: bool) {
    && ((p.query.unitStride && p.key.unitStride && p.value.unitStride) || (ignoreSingleton && p.query.cols == 1))
    && (p.mask.NoMask? || p.maskUnitStride)
  }

  predicate CanUseFlash(env: Env, p: Params) {
    && env.flashEnabled && p.query.onGcu && p.mask.NoMask?
    && HeadDimOk(p) && CausalSquareOk(p) && LowPrecisionOk(env, p)
    && BatchAndHeadsOk(p, true) && NonzeroSequences(p) && LastDimUnit(p, true)
  }

  predicate CanUseEfficient(env: Env, p: Params) {
    && env.memEfficientEnabled && p.query.onGcu
    && NonzeroSequences(p) && LastDimUnit(p, false) && BatchAndHeadsOk(p, false)
  }

  /** The priority order; its fourth slot is zero-initialised, which is the math backend again. */
  const PRIORITY: seq<Backend> := [FlashAttention, EfficientAttention, MathAttention, MathAttention]

  predicate Usable(env: Env, p: Params, b: Backend) {
    match b
    case FlashAttention => CanUseFlash(env, p)
    case EfficientAttention => CanUseEfficient(env, p)
    case MathAttention => env.mathEnabled
    case NoBackend => false
  }

  function FirstUsable(env: Env, p: Params, order: seq<Backend>): (b: Backend)
    ensures b.NoBackend? <==> forall o :: o in order ==> !Usable(env, p, o)
    ensures !b.NoBackend? ==> b in order && Usable(env, p, b)
  {
    if order == [] then NoBackend
    else if Usable(env, p, order[0]) then order[0]
    else FirstUsable(env, p, order[1..])
  }

  function SelectBackend(env: Env, p: Params): (b: Backend) {
    if !env.mathEnabled && !env.flashEnabled && !env.memEfficientEnabled then NoBackend
    else FirstUsable(env, p, PRIORITY)
  }

  /** Flash whenever its gates hold, else efficient whenever its gates hold, else math if enabled. */
  lemma SelectionFollowsPriority(env: Env, p: Params)
    ensures SelectBackend(env, p) ==
      if CanUseFlash(env, p) then FlashAttention
      else if CanUseEfficient(env, p) then EfficientAttention
      else if env.mathEnabled then MathAttention
      else NoBackend
  {
    FirstOfPriority(env, p);
  }

  lemma FirstOfPriority(env: Env, p: Params)
    ensures FirstUsable(env, p, PRIORITY) ==
      if CanUseFlash(env, p) then FlashAttention
      else if CanUseEfficient(env, p) then EfficientAttention
      else if env.mathEnabled then MathAttention
      else NoBackend
  {
    var second, third, fourth := [EfficientAttention, MathAttention, MathAttention], [MathAttention, MathAttention], [MathAttention];
    assert PRIORITY[1..] == second && second[1..] == third && third[1..] == fourth;
    assert FirstUsable(env, p, fourth) == if env.mathEnabled then MathAttention else NoBackend;
    assert FirstUsable(env, p, third) == if env.mathEnabled then MathAttention else NoBackend;
    assert FirstUsable(env, p, second) == if CanUseEfficient(env, p) then EfficientAttention else FirstUsable(env, p, third);
  }

  // ------------------------------------------------------------- the flash route

  function PaddedSize(n: nat): (m: nat)
    ensures m % 8 == 0 && n <= m < n + 8
    ensures n % 8 == 0 ==> m == n
    ensures n <= 256 ==> m <= 256
  {
    if n % 8 == 0 then n else n + (8 - n % 8)
  }

  /** Zero padding of the last dimension to a multiple of 8. */
  function PadLastDim(t: Tensor): Tensor {
    if t.cols % 8 == 0 then t
    else t.(cols := PaddedSize(t.cols), at := (b: nat, h: nat, i: nat, c: nat) => if c < t.cols then t.at(b, h, i, c) else 0.0)
  }

  function PostProcess(out: Tensor, ogSize: nat): Tensor {
    if out.cols != ogSize then out.(cols := ogSize) else out
  }

  function FlashRoute(env: Env, p: Params): Tensor {
    var q, k, v := PadLastDim(p.query), PadLastDim(p.key), PadLastDim(p.value);
    PostProcess(FlashKernel(env, q, k, v, p.isCausal, ScaleOf(env, p.query, p.scale)), p.query.cols)
  }

  /** A boolean mask becomes an additive one that removes the keys to be dropped. */
  function ConvertBooleanMask(mask: Mask, dtype: DType): Mask {
    match mask
    case NoMask => NoMask
    case BoolMask(keep) => AdditiveMask(dtype, (b: nat, h: nat, i: nat, j: nat) => if !keep(b, h, i, j) then NegInf else Finite(0.0))
    case AdditiveMask(_, _) => mask
  }

  predicate ValidInput(p: Params) {
    && p.query.dtype == p.key.dtype && p.query.dtype == p.value.dtype
    && p.query.onGcu == p.key.onGcu && p.query.onGcu == p.value.onGcu
    && (p.mask.AdditiveMask? ==> p.mask.dtype.Boolean? || p.mask.dtype.Float? || p.mask.dtype == p.query.dtype)
  }

  function ScaledDotProductAttention(env: Env, p: Params): (r: Result<Tensor, Failure>) {
    if !ValidInput(p) then Err(InvalidInput)
    else
      match SelectBackend(env, p)
      case FlashAttention => Ok(FlashRoute(env, p))
      case EfficientAttention => Ok(EfficientKernel(env, p.query, p.key, p.value, p.mask, p.isCausal, p.scale))
      case MathAttention => Ok(MathKernel(env, p.(mask := ConvertBooleanMask(p.mask, p.query.dtype))))
      case NoBackend => Err(NoViableBackend)
  }

  // --------------------------------------------------------------------- proofs

  /** Two problems whose weights and value columns agree on every key attend alike. */
  lemma {:induction false} SumsAgree(p: Problem, p': Problem, b: nat, h: nat, i: nat, c: nat, n: nat)
    requires forall j: nat :: j < n ==> Weight(p, b, h, i, j) == Weight(p', b, h, i, j)
    requires forall j: nat :: j < n ==> ValueAt(p, b, h, j, c) == ValueAt(p', b, h, j, c)
    ensures WeightSum(p, b, h, i, n) == WeightSum(p', b, h, i, n)
    ensures ValueSum(p, b, h, i, c, n) == ValueSum(p', b, h, i, c, n)
  {
    if n > 0 {
      SumsAgree(p, p', b, h, i, c, n - 1);
    }
  }

  /** Padded columns of query and key add zero to every dot product. */
  lemma {:induction false} RowDotIgnoresPadding(p: Problem, p': Problem, b: nat, h: nat, i: nat, j: nat, n: nat)
    requires p'.q == PadLastDim(p.q) && p.q.cols == p.k.cols && n <= p'.q.cols
    requires forall c: nat :: c < p.k.cols ==> KeyAt(p', b, h, j, c) == KeyAt(p, b, h, j, c)
    ensures RowDot(p', b, h, i, j, n) == RowDot(p, b, h, i, j, if n < p.q.cols then n else p.q.cols)
  {
    if n > 0 {
      RowDotIgnoresPadding(p, p', b, h, i, j, n - 1);
      if n > p.q.cols {
        assert p'.q.at(b, h, i, n - 1) == 0.0;
      } else {
        assert KeyAt(p', b, h, j, n - 1) == KeyAt(p, b, h, j, n - 1);
      }
    }
  }

  /** Looking up the key/value head or batch entry the kernel's way gives the reference's choice. */
  lemma LookupsAgree(queries: nat, x: nat, size: nat)
    requires x < queries && size == queries
    ensures Find(Grouped, queries, x, size) == x && Find(Broadcasting, queries, x, size) == x
  {
    assert queries / queries == 1;
  }

  ghost predicate SameSizes(t: Tensor, u: Tensor) {
    t.batch == u.batch && t.heads == u.heads && t.rows == u.rows && t.cols == u.cols
  }

  /** Same sizes and, inside them, same entries. */
  ghost predicate SameTensor(t: Tensor, u: Tensor) {
    && SameSizes(t, u)
    && forall b: nat, h: nat, i: nat, c: nat :: b < t.batch && h < t.heads && i < t.rows && c < t.cols ==>
         t.at(b, h, i, c) == u.at(b, h, i, c)
  }

  /** The problem the flash kernel solves on the padded operands. */
  function PaddedProblem(env: Env, p: Params): Problem {
    Problem(PadLastDim(p.query), PadLastDim(p.key), PadLastDim(p.value), NoMask, p.isCausal,
            p.key.rows - p.query.rows, ScaleOf(env, p.query, p.scale), Grouped, Same, env.exp)
  }

  /** Key and value entries inside the original head dimension are the reference's. */
  lemma PaddedEntries(env: Env, p: Params, b: nat, h: nat, j: nat, c: nat)
    requires CanUseFlash(env, p) && b < p.query.batch && h < p.query.heads && c < p.query.cols
    ensures KeyAt(PaddedProblem(env, p), b, h, j, c) == KeyAt(Reference(env, p), b, h, j, c)
    ensures ValueAt(PaddedProblem(env, p), b, h, j, c) == ValueAt(Reference(env, p), b, h, j, c)
  {
    LookupsAgree(p.query.batch, b, p.key.batch);
    if !p.enableGqa {
      LookupsAgree(p.query.heads, h, p.key.heads);
    }
  }

  /** Padding, the explicit scale, the dropped mask and the lower-right diagonal change no weight. */
  lemma PaddedWeight(env: Env, p: Params, b: nat, h: nat, i: nat, j: nat)
    requires CanUseFlash(env, p) && b < p.query.batch && h < p.query.heads
    ensures Weight(PaddedProblem(env, p), b, h, i, j) == Weight(Reference(env, p), b, h, i, j)
  {
    var padded, ref := PaddedProblem(env, p), Reference(env, p);
    forall c: nat | c < p.key.cols ensures KeyAt(padded, b, h, j, c) == KeyAt(ref, b, h, j, c) {
      PaddedEntries(env, p, b, h, j, c);
    }
    assert Score(padded, b, h, i, j) == Score(ref, b, h, i, j) by {
      RowDotIgnoresPadding(ref, padded, b, h, i, j, padded.q.cols);
    }
    assert BiasAt(padded, b, h, i, j) == BiasAt(ref, b, h, i, j);
  }

  /** The flash route returns reference attention whenever its gates hold. */
  lemma FlashIsReference(env: Env, p: Params)
    requires CanUseFlash(env, p)
    ensures SameTensor(FlashRoute(env, p), Output(Reference(env, p)))
    ensures PadLastDim(p.query).cols % 8 == 0 && PadLastDim(p.query).cols <= 256
  {
    var padded, ref := PaddedProblem(env, p), Reference(env, p);
    forall b: nat, h: nat, i: nat, c: nat | b < p.query.batch && h < p.query.heads && i < p.query.rows && c < p.query.cols
      ensures Attend(padded, b, h, i, c) == Attend(ref, b, h, i, c)
    {
      forall j: nat | j < p.key.rows
        ensures Weight(padded, b, h, i, j) == Weight(ref, b, h, i, j) && ValueAt(padded, b, h, j, c) == ValueAt(ref, b, h, j, c)
      {
        PaddedWeight(env, p, b, h, i, j);
        PaddedEntries(env, p, b, h, j, c);
      }
      SumsAgree(padded, ref, b, h, i, c, p.key.rows);
    }
  }

  /** The efficient route returns reference attention whenever its gates hold: equal head counts
      make grouping and broadcasting the identity. */
  lemma EfficientIsReference(env: Env, p: Params)
    requires CanUseEfficient(env, p)
    ensures SameTensor(EfficientKernel(env, p.query, p.key, p.value, p.mask, p.isCausal, p.scale), Output(Reference(env, p)))
  {
    var ref := Reference(env, p);
    var eff := ref.(heads := Same, batches := Same);
    forall b: nat, h: nat, i: nat, c: nat | b < p.query.batch && h < p.query.heads && i < p.query.rows && c < p.value.cols
      ensures Attend(eff, b, h, i, c) == Attend(ref, b, h, i, c)
    {
      LookupsAgree(p.query.batch, b, p.key.batch);
      LookupsAgree(p.query.heads, h, p.key.heads);
      forall j: nat | j < p.key.rows
        ensures Weight(eff, b, h, i, j) == Weight(ref, b, h, i, j)
      {
        SameRowDot(eff, ref, b, h, i, j, p.query.cols);
        assert Score(eff, b, h, i, j) == Score(ref, b, h, i, j) && BiasAt(eff, b, h, i, j) == BiasAt(ref, b, h, i, j);
      }
      SumsAgree(eff, ref, b, h, i, c, p.key.rows);
    }
  }

  lemma {:induction false} SameRowDot(p: Problem, p': Problem, b: nat, h: nat, i: nat, j: nat, n: nat)
    requires p.q == p'.q && forall c: nat :: KeyAt(p, b, h, j, c) == KeyAt(p', b, h, j, c)
    ensures RowDot(p, b, h, i, j, n) == RowDot(p', b, h, i, j, n)
  {
    if n > 0 {
      SameRowDot(p, p', b, h, i, j, n - 1);
    }
  }

  /** The converted mask biases every key as the boolean mask does. */
  lemma MathIsReference(env: Env, p: Params)
    ensures SameTensor(MathKernel(env, p.(mask := ConvertBooleanMask(p.mask, p.query.dtype))), Output(Reference(env, p)))
  {
    var ref := Reference(env, p);
    var conv := Reference(env, p.(mask := ConvertBooleanMask(p.mask, p.query.dtype)));
    forall b: nat, h: nat, i: nat, c: nat
      ensures Attend(conv, b, h, i, c) == Attend(ref, b, h, i, c)
    {
      forall j: nat | j < p.key.rows
        ensures Weight(conv, b, h, i, j) == Weight(ref, b, h, i, j)
      {
        SameRowDot(conv, ref, b, h, i, j, p.query.cols);
        assert Score(conv, b, h, i, j) == Score(ref, b, h, i, j) && BiasAt(conv, b, h, i, j) == BiasAt(ref, b, h, i, j);
      }
      SumsAgree(conv, ref, b, h, i, c, p.key.rows);
    }
  }

  /** Whatever backend the gates and switches lead to, the call returns reference attention of the
      caller's own arguments; it fails exactly on invalid input or when nothing is usable. */
  lemma AttentionIsReference(env: Env, p: Params)
    ensures var r := ScaledDotProductAttention(env, p);
      && (r.Ok? ==> SameTensor(r.value, Output(Reference(env, p))))
      && (r.Err? && r.error.InvalidInput? <==> !ValidInput(p))
      && (r.Err? && r.error.NoViableBackend? <==>
            ValidInput(p) && !CanUseFlash(env, p) && !CanUseEfficient(env, p) && !env.mathEnabled)
  {
    SelectionFollowsPriority(env, p);
    if CanUseFlash(env, p) {
      FlashIsReference(env, p);
    }
    if CanUseEfficient(env, p) {
      EfficientIsReference(env, p);
    }
    MathIsReference(env, p);
  }
}
