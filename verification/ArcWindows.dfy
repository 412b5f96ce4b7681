// What one call does to the counters and the limit, and how the limit moves over runs, with every
// constant and every rate written out.
module ArcWindows {
  import opened Ordering
  import opened ArcSpec
  import opened ArcRuns
  import opened ArcTheorems

  // ---- one call --------------------------------------------------------------------------------

  // A put touches no counter and no limit; its key starts with one use, the others keep theirs.
  lemma PutCounters<T>(s: State<T>, k: string, v: T)
    requires Inv(s)
    ensures var r := Put(s, k, v);
            && r.soft == s.soft && r.total == s.total && r.hits == s.hits && r.hard == s.hard
            && k in r.uses && r.uses[k] == 1
            && forall x | x in r.vals && x != k :: x in s.vals && x in r.uses && r.uses[x] == s.uses[x]
  {
    if k in s.vals { DropKeepsStruct(s, k); }
  }

  // A get that does not fill the window only counts.
  lemma WindowStaysOpen<T>(s: State<T>)
    requires Inv(s) && s.total + 1 < 10 * s.soft
    ensures Sampled(s) == s.(total := s.total + 1)
  {}

  // A get that fills the window starts a new one. The rate of the old one decides: under one half and
  // below the hard limit the limit goes up a step, over nine tenths and above the minimum it goes
  // down a step, and otherwise nothing happens. Only going down can cost entries.
  lemma WindowCloses<T>(s: State<T>)
    requires Inv(s) && s.total + 1 == 10 * s.soft
    ensures var h, t, step, r := s.hits, s.total + 1, Max(1, s.hard / 10), Sampled(s);
            && r.total == 0 && r.hits == 0 && r.hard == s.hard
            && (2 * h < t && s.soft < s.hard ==> r.soft == Min(s.soft + step, s.hard))
            && (2 * h < t && s.soft >= s.hard ==> r.soft == s.soft)
            && (2 * h >= t && 10 * h <= 9 * t ==> r.soft == s.soft)
            && (10 * h > 9 * t && s.soft > step ==> r.soft == Max(s.soft - step, step))
            && (10 * h > 9 * t && s.soft <= step ==> r.soft == s.soft)
    ensures !(10 * s.hits > 9 * (s.total + 1) && s.soft > Max(1, s.hard / 10)) ==>
              && Sampled(s).vals == s.vals && Sampled(s).uses == s.uses && Sampled(s).lru == s.lru
              && Sampled(s).destroyed == s.destroyed
  {
    SampledShape(s);
  }

  // n evictions in a row.
  ghost function Evictions<T>(s: State<T>, n: nat): State<T>
    requires Struct(s)
    decreases n
  {
    if n == 0 then s else EvictRemovesOne(s); Evictions(Evict(s), n - 1)
  }

  // Trimming is evicting as many times as there are entries too many.
  lemma {:induction false} TrimIsEvictions<T>(s: State<T>, n: nat)
    requires Struct(s) && s.soft >= 0 && n == Max(0, |s.vals| - s.soft)
    ensures Trim(s) == Evictions(s, n)
    decreases n
  {
    if n == 0 {
      NoTrim(s);
    } else {
      var e := Evict(s);
      EvictedOnce(s, e);
      TrimIsEvictions(e, n - 1);
      TrimOnce(s, e, n);
    }
  }

  lemma NoTrim<T>(s: State<T>)
    requires Struct(s) && 0 <= s.soft && |s.vals| <= s.soft
    ensures Trim(s) == s == Evictions(s, 0)
  {}

  lemma EvictedOnce<T>(s: State<T>, e: State<T>)
    requires Struct(s) && 0 <= s.soft < |s.vals| && e == Evict(s)
    ensures Struct(e) && e.soft == s.soft && |e.vals| == |s.vals| - 1
  {
    EvictRemovesOne(s);
  }

  lemma TrimOnce<T>(s: State<T>, e: State<T>, n: nat)
    requires Struct(s) && 0 <= s.soft < |s.vals| && e == Evict(s) && Struct(e) && e.soft == s.soft
    requires n > 0 && Trim(e) == Evictions(e, n - 1)
    ensures Trim(s) == Evictions(s, n)
  {}

  // A hot window above the minimum lowers the limit and trims the cache to it.
  lemma HotWindowTrims<T>(s: State<T>, lower: State<T>, n: nat)
    requires Inv(s) && s.total + 1 == 10 * s.soft
    requires 10 * s.hits > 9 * (s.total + 1) && s.soft > Max(1, s.hard / 10)
    requires lower == s.(total := s.total + 1, soft := Max(s.soft - Max(1, s.hard / 10), Max(1, s.hard / 10)))
    requires n == Max(0, |s.vals| - lower.soft)
    ensures Struct(lower) && Sampled(s) == Evictions(lower, n).(hits := 0, total := 0)
  {
    SampledShape(s);
    assert Shrunk(s) == lower;
    TrimIsEvictions(lower, n);
  }

  // After the sampling a key that is there is found, credited and moved; a key that is not changes
  // nothing more.
  lemma GetEffect<T>(s: State<T>, k: string)
    requires Inv(s)
    ensures Struct(Sampled(s))
    ensures var s1, r := Sampled(s), Get(s, k);
            if k in s1.vals then
              && Found(s, k) == Some(s1.vals[k])
              && r.vals == s1.vals && r.uses == s1.uses[k := s1.uses[k] + 1] && r.hits == s1.hits + 1
              && r.total == s1.total && r.soft == s1.soft && r.hard == s1.hard && r.destroyed == s1.destroyed
              && (forall x | x != k :: x in r.lru <==> x in s1.lru)
              && (k in r.lru <==> r.uses[k] <= Max(2, s.hard / 20))
              && (k in r.lru ==> r.lru[0] == k)
            else
              Found(s, k) == None && r == s1
  {
    SampledKeepsInv(s);
    GetKeepsInv(s, k);
    WithoutMembers(Sampled(s).lru, k);
  }

  // ---- use counts over runs ----------------------------------------------------------------------

  // The gets of a key since it was last put.
  function GetsSince<T>(ops: seq<Op<T>>, k: string): nat {
    if ops == [] then 0
    else
      match ops[|ops| - 1]
      case OpPut(x, _) => if x == k then 0 else GetsSince(ops[..|ops| - 1], k)
      case OpGet(x) => GetsSince(ops[..|ops| - 1], k) + if x == k then 1 else 0
  }

  // A resident key has been used once by its put and once by every get since.
  lemma {:induction false} UsesAreGets<T>(hard: int, ops: seq<Op<T>>)
    ensures forall k | k in Run(hard, ops).vals ::
              k in Run(hard, ops).uses && Run(hard, ops).uses[k] == 1 + GetsSince(ops, k)
  {
    if ops != [] {
      var before := ops[..|ops| - 1];
      var s := Run(hard, before);
      UsesAreGets(hard, before);
      match ops[|ops| - 1]
      case OpPut(k, v) => PutCounters(s, k, v);
      case OpGet(k) => GetUses(s, k);
    }
  }

  lemma GetUses<T>(s: State<T>, k: string)
    requires Inv(s)
    ensures forall x | x in Get(s, k).vals ::
              && x in s.vals && x in Get(s, k).uses
              && Get(s, k).uses[x] == s.uses[x] + if x == k then 1 else 0
  {
    GetEffect(s, k);
    SampledUses(s);
  }

  lemma SampledUses<T>(s: State<T>)
    requires Inv(s)
    ensures forall x | x in Sampled(s).vals :: x in s.vals && x in Sampled(s).uses && Sampled(s).uses[x] == s.uses[x]
  {
    SampledShape(s);
    if WindowFull(s) && Shrunk(s).soft < s.soft { TrimKeepsUses(Shrunk(s)); }
  }

  lemma {:induction false} TrimKeepsUses<T>(s: State<T>)
    requires Struct(s) && s.soft >= 0
    ensures forall x | x in Trim(s).vals :: x in s.vals && x in Trim(s).uses && Trim(s).uses[x] == s.uses[x]
    decreases |s.vals|
  {
    EvictRemovesOne(s);
    if |s.vals| > s.soft { TrimKeepsUses(Evict(s)); }
  }

  // So the side a key is on depends on what its callers did since they stored it.
  lemma SideOfKey<T>(hard: int, ops: seq<Op<T>>, k: string)
    requires k in Run(hard, ops).vals
    ensures k in Run(hard, ops).lru <==> 1 + GetsSince(ops, k) <= Max(2, hard / 20)
  {
    UsesAreGets(hard, ops);
    RunKeepsHard(hard, ops);
  }

  // ---- sampling windows over runs ----------------------------------------------------------------

  // A run continued from any state the cache can be in.
  ghost function RunFrom<T>(s: State<T>, ops: seq<Op<T>>): (r: State<T>)
    requires Inv(s)
    ensures Inv(r)
  {
    if ops == [] then s else Do(RunFrom(s, ops[..|ops| - 1]), ops[|ops| - 1])
  }

  // The last call of the run closes a sampling window.
  ghost predicate Closes<T>(s: State<T>, ops: seq<Op<T>>)
    requires Inv(s) && ops != []
  {
    ops[|ops| - 1].OpGet? && WindowFull(RunFrom(s, ops[..|ops| - 1]))
  }

  // How many windows the run closes.
  ghost function Windows<T>(s: State<T>, ops: seq<Op<T>>): nat
    requires Inv(s)
  {
    if ops == [] then 0 else Windows(s, ops[..|ops| - 1]) + if Closes(s, ops) then 1 else 0
  }

  datatype Rate = Cold | Steady | Hot

  // The hit rate of the window about to close: under one half, up to nine tenths, or over that.
  ghost predicate Has<T>(s: State<T>, rate: Rate) {
    match rate
    case Cold => 2 * s.hits < s.total + 1
    case Steady => 2 * s.hits >= s.total + 1 && 10 * s.hits <= 9 * (s.total + 1)
    case Hot => 10 * s.hits > 9 * (s.total + 1)
  }

  // Every window the run closes had that rate.
  ghost predicate AllWindows<T>(s: State<T>, ops: seq<Op<T>>, rate: Rate)
    requires Inv(s)
  {
    ops == [] || (
      && AllWindows(s, ops[..|ops| - 1], rate)
      && (Closes(s, ops) ==> Has(RunFrom(s, ops[..|ops| - 1]), rate)))
  }

  // Where n windows of a rate take the limit from base.
  function Moved(hard: int, base: int, rate: Rate, n: nat): int {
    match rate
    case Cold => Min(base + n * Max(1, hard / 10), Max(Max(1, hard / 10), hard))
    case Steady => base
    case Hot => Max(base - n * Max(1, hard / 10), Max(1, hard / 10))
  }

  lemma NotMoved(hard: int, base: int, rate: Rate)
    requires Max(1, hard / 10) <= base <= Max(Max(1, hard / 10), hard)
    ensures Moved(hard, base, rate, 0) == base
  {}

  lemma MoveOnce(hard: int, base: int, rate: Rate, n: nat)
    requires Max(1, hard / 10) <= base <= Max(Max(1, hard / 10), hard)
    ensures var soft, step := Moved(hard, base, rate, n), Max(1, hard / 10);
            Moved(hard, base, rate, n + 1) ==
            match rate
            case Cold => if soft < hard then Min(soft + step, hard) else soft
            case Steady => soft
            case Hot => if soft > step then Max(soft - step, step) else soft
  {
    assert (n + 1) * Max(1, hard / 10) == n * Max(1, hard / 10) + Max(1, hard / 10);
  }

  lemma DoKeepsHard<T>(s: State<T>, op: Op<T>)
    requires Inv(s)
    ensures Do(s, op).hard == s.hard
  {
    match op
    case OpPut(k, v) => PutCounters(s, k, v);
    case OpGet(k) => SampledKeepsInv(s);
  }

  lemma DoMoves<T>(s: State<T>, op: Op<T>, base: int, rate: Rate, n: nat)
    requires Inv(s) && Max(1, s.hard / 10) <= base <= Max(Max(1, s.hard / 10), s.hard)
    requires s.soft == Moved(s.hard, base, rate, n)
    requires op.OpGet? && WindowFull(s) ==> Has(s, rate)
    ensures Do(s, op).soft == Moved(s.hard, base, rate, if op.OpGet? && WindowFull(s) then n + 1 else n)
  {
    match op
    case OpPut(k, v) => PutCounters(s, k, v);
    case OpGet(k) =>
      GetEffect(s, k);
      if WindowFull(s) {
        WindowCloses(s);
        MoveOnce(s.hard, base, rate, n);
      } else {
        WindowStaysOpen(s);
      }
  }

  // The last call of a run closes no window or one, and only that can move the limit.
  lemma LastCall<T>(s: State<T>, ops: seq<Op<T>>, rate: Rate)
    requires Inv(s) && ops != [] && AllWindows(s, ops, rate)
    ensures var before := RunFrom(s, ops[..|ops| - 1]);
            && AllWindows(s, ops[..|ops| - 1], rate)
            && (Closes(s, ops) ==> Has(before, rate))
            && Windows(s, ops) == Windows(s, ops[..|ops| - 1]) + (if Closes(s, ops) then 1 else 0)
  {}

  lemma LastCallMoves<T>(s: State<T>, ops: seq<Op<T>>, base: int, rate: Rate, n: nat)
    requires Inv(s) && ops != [] && (Closes(s, ops) ==> Has(RunFrom(s, ops[..|ops| - 1]), rate))
    requires RunFrom(s, ops[..|ops| - 1]).hard == s.hard
    requires RunFrom(s, ops[..|ops| - 1]).soft == Moved(s.hard, base, rate, n)
    requires Max(1, s.hard / 10) <= base <= Max(Max(1, s.hard / 10), s.hard)
    ensures RunFrom(s, ops).hard == s.hard
    ensures RunFrom(s, ops).soft == Moved(s.hard, base, rate, if Closes(s, ops) then n + 1 else n)
  {
    var before, op := RunFrom(s, ops[..|ops| - 1]), ops[|ops| - 1];
    DoKeepsHard(before, op);
    DoMoves(before, op, base, rate, n);
  }

  lemma {:induction false} WindowsMove<T>(s: State<T>, ops: seq<Op<T>>, rate: Rate)
    requires Inv(s) && AllWindows(s, ops, rate)
    ensures RunFrom(s, ops).hard == s.hard
    ensures RunFrom(s, ops).soft == Moved(s.hard, s.soft, rate, Windows(s, ops))
  {
    if ops == [] {
      NotMoved(s.hard, s.soft, rate);
    } else {
      LastCall(s, ops, rate);
      WindowsMove(s, ops[..|ops| - 1], rate);
      LastCallMoves(s, ops, s.soft, rate, Windows(s, ops[..|ops| - 1]));
    }
  }

  // From any state, whatever happened before: cold windows raise the limit by one step each, up to
  // the hard limit.
  lemma ColdWindowsRaise<T>(s: State<T>, ops: seq<Op<T>>)
    requires Inv(s) && AllWindows(s, ops, Cold)
    ensures RunFrom(s, ops).soft
            == Min(s.soft + Windows(s, ops) * Max(1, s.hard / 10), Max(Max(1, s.hard / 10), s.hard))
  {
    WindowsMove(s, ops, Cold);
  }

  // Windows between one half and nine tenths never move it.
  lemma SteadyWindowsKeep<T>(s: State<T>, ops: seq<Op<T>>)
    requires Inv(s) && AllWindows(s, ops, Steady)
    ensures RunFrom(s, ops).soft == s.soft
  {
    WindowsMove(s, ops, Steady);
  }

  // Hot windows lower it by one step each, down to the minimum.
  lemma HotWindowsLower<T>(s: State<T>, ops: seq<Op<T>>)
    requires Inv(s) && AllWindows(s, ops, Hot)
    ensures RunFrom(s, ops).soft == Max(s.soft - Windows(s, ops) * Max(1, s.hard / 10), Max(1, s.hard / 10))
  {
    WindowsMove(s, ops, Hot);
  }

  // So ceil((hard - soft) / step) cold windows lead from any state to the hard limit.
  lemma HardLimitReached<T>(s: State<T>, ops: seq<Op<T>>)
    requires Inv(s) && s.hard >= 1 && AllWindows(s, ops, Cold)
    requires Windows(s, ops) * Max(1, s.hard / 10) >= s.hard - s.soft
    ensures RunFrom(s, ops).soft == s.hard
  {
    ColdWindowsRaise(s, ops);
  }

  // In particular ceil((hard - min) / step) of them do, after any history and from the constructor.
  lemma HardLimitReachedAfter<T>(hard: int, history: seq<Op<T>>, ops: seq<Op<T>>)
    requires hard >= 1 && AllWindows(Run(hard, history), ops, Cold)
    requires Windows(Run(hard, history), ops) * Max(1, hard / 10) >= hard - Max(1, hard / 10)
    ensures Run(hard, history + ops).soft == hard
  {
    RunKeepsHard(hard, history);
    RunContinues(hard, history, ops);
    HardLimitReached(Run(hard, history), ops);
  }

  lemma {:induction false} RunKeepsHard<T>(hard: int, ops: seq<Op<T>>)
    ensures Run(hard, ops).hard == hard
  {
    if ops != [] {
      RunKeepsHard(hard, ops[..|ops| - 1]);
      DoKeepsHard(Run(hard, ops[..|ops| - 1]), ops[|ops| - 1]);
    }
  }

  lemma RunFromAppend<T>(s: State<T>, ops: seq<Op<T>>, op: Op<T>)
    requires Inv(s)
    ensures RunFrom(s, ops + [op]) == Do(RunFrom(s, ops), op)
  {
    assert (ops + [op])[..|ops|] == ops;
  }

  lemma RunOneMore<T>(hard: int, history: seq<Op<T>>, ops: seq<Op<T>>, op: Op<T>)
    ensures Run(hard, history + (ops + [op])) == Do(Run(hard, history + ops), op)
  {
    assert history + (ops + [op]) == (history + ops) + [op];
    RunAppend(hard, history + ops, op);
  }

  lemma {:induction false} RunContinues<T>(hard: int, history: seq<Op<T>>, ops: seq<Op<T>>)
    ensures Run(hard, history + ops) == RunFrom(Run(hard, history), ops)
    decreases |ops|
  {
    if ops == [] {
      assert history + ops == history;
    } else {
      var init, op := ops[..|ops| - 1], ops[|ops| - 1];
      assert ops == init + [op];
      RunContinues(hard, history, init);
      RunOneMore(hard, history, init, op);
      RunFromAppend(Run(hard, history), init, op);
    }
  }
}
