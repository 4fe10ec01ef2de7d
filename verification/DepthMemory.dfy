/** The odom-frame obstacle memory of body/lib/depth_memory.py, frame by frame. */
module DepthMemory {
  import opened Numbers
  import opened Options
  import opened Grid
  import opened DepthEvidence

  datatype Config = Config(enabled: bool, cellM: real, minPts: int, frames: Frames, floorMinPts: int, ttlS: real,
                           keepRadiusM: real, clearRadiusM: real, maxAbsOmega: real, staleS: real, maxCells: int)

  /** A depth message: its identity, format and time, and the obstacle and floor points it puts in each cell. */
  datatype Message = Message(key: Option<int>, formatOk: bool, ts: Option<real>, obs: map<Cell, nat>, floor: map<Cell, nat>)

  /** What a message integrates as. */
  datatype Frame = Frame(ts: real, obs: map<Cell, nat>, floor: map<Cell, nat>)

  /** A message without a time counts as sent at zero when its age is checked ... */
  function Sent(msg: Message): real {
    if msg.ts.Some? then msg.ts.value else 0.0
  }

  /** ... and as taken now when it is integrated. */
  function Taken(msg: Message, now: real): Frame {
    Frame(if msg.ts.Some? then msg.ts.value else now, msg.obs, msg.floor)
  }

  function Count(counts: map<Cell, nat>, c: Cell): nat {
    if c in counts then counts[c] else 0
  }

  // ── what one frame and one expiry do to a cell ──

  predicate IsHit(cfg: Config, fr: Frame, c: Cell) {
    c in fr.obs && fr.obs[c] >= cfg.minPts
  }

  predicate SeenFree(cfg: Config, fr: Frame, c: Cell) {
    Count(fr.floor, c) >= cfg.floorMinPts && Count(fr.obs, c) == 0
  }

  /** What an integrated frame says about a cell. */
  function Says(cfg: Config, fr: Frame, c: Cell): Signal {
    if IsHit(cfg, fr, c) then Hit(fr.ts)
    else if SeenFree(cfg, fr, c) then Free
    else Silent
  }

  /** A frame hits a cell with enough obstacle points, shows floor with enough of those and no obstacle, and else says nothing. */
  lemma FrameSays(cfg: Config, fr: Frame, c: Cell)
    ensures var obs, floor := if c in fr.obs then fr.obs[c] else 0, if c in fr.floor then fr.floor[c] else 0;
      match Says(cfg, fr, c)
      case Hit(ts) => c in fr.obs && cfg.minPts <= obs && ts == fr.ts
      case Free => obs == 0 && cfg.floorMinPts <= floor && (c in fr.obs ==> cfg.minPts > 0)
      case Silent => (c in fr.obs ==> obs < cfg.minPts) && (floor < cfg.floorMinPts || obs > 0)
      case Dropped => false
  {
  }

  function Lookup(cells: map<Cell, CellState>, c: Cell): Option<CellState> {
    if c in cells then Some(cells[c]) else None
  }

  /** Squared distance from the cell's centre to the robot. */
  function DistSq(cellM: real, c: Cell, x: real, y: real): real {
    Square((c.i as real + 0.5) * cellM - x) + Square((c.j as real + 0.5) * cellM - y)
  }

  /** Too old, too far, or under the robot. */
  predicate Expired(cfg: Config, c: Cell, st: CellState, now: real, x: real, y: real) {
    || (st.confirmed && cfg.ttlS > 0.0 && now - st.lastHitTs > cfg.ttlS)
    || DistSq(cfg.cellM, c, x, y) > Square(cfg.keepRadiusM)
    || DistSq(cfg.cellM, c, x, y) < Square(cfg.clearRadiusM)
  }

  // ── the log: everything that ever happened, cell by cell ──

  /** One entry of the log: an integrated frame, or the cells an expiry or a reset dropped. */
  datatype Entry = Integrated(frame: Frame) | Lost(cells: set<Cell>)

  /** What the log holds for one cell. */
  function History(cfg: Config, log: seq<Entry>, c: Cell): seq<Signal> {
    if log == [] then []
    else
      var before := History(cfg, log[..|log| - 1], c);
      match log[|log| - 1]
      case Integrated(frame) => before + [Says(cfg, frame, c)]
      case Lost(cells) => if c in cells then before + [Dropped] else before
  }

  /** The dictionary holds, for every cell, what that cell's history makes of it. */
  ghost predicate Agrees(cfg: Config, cells: map<Cell, CellState>, log: seq<Entry>) {
    forall c {:trigger Lookup(cells, c)} :: Lookup(cells, c) == After(cfg.frames, History(cfg, log, c))
  }

  /** `cells` after an integrated frame. */
  ghost predicate Integrates(cfg: Config, was: map<Cell, CellState>, now: map<Cell, CellState>, fr: Frame) {
    forall c {:trigger Lookup(now, c)} :: Lookup(now, c) == Next(cfg.frames, Lookup(was, c), Says(cfg, fr, c))
  }

  lemma HistoryGrows(cfg: Config, log: seq<Entry>, e: Entry, c: Cell)
    ensures History(cfg, log + [e], c) == History(cfg, log, c)
      + (if e.Integrated? then [Says(cfg, e.frame, c)] else if c in e.cells then [Dropped] else [])
  {
    assert (log + [e])[..|log|] == log;
  }

  lemma AfterAppend(f: Frames, h: seq<Signal>, s: Signal)
    ensures After(f, h + [s]) == Next(f, After(f, h), s)
  {
    assert (h + [s])[..|h|] == h;
  }

  lemma IntegrateAgrees(cfg: Config, was: map<Cell, CellState>, now: map<Cell, CellState>, fr: Frame, log: seq<Entry>)
    requires Agrees(cfg, was, log) && Integrates(cfg, was, now, fr)
    ensures Agrees(cfg, now, log + [Integrated(fr)])
  {
    hide Lookup, Says, Next;
    forall c ensures Lookup(now, c) == After(cfg.frames, History(cfg, log + [Integrated(fr)], c)) {
      assert Lookup(was, c) == After(cfg.frames, History(cfg, log, c));
      HistoryGrows(cfg, log, Integrated(fr), c);
      AfterAppend(cfg.frames, History(cfg, log, c), Says(cfg, fr, c));
    }
  }

  lemma LossAgrees(cfg: Config, was: map<Cell, CellState>, now: map<Cell, CellState>, gone: set<Cell>, log: seq<Entry>)
    requires Agrees(cfg, was, log) && now == was - gone
    ensures Agrees(cfg, now, log + [Lost(gone)])
  {
    forall c ensures Lookup(now, c) == After(cfg.frames, History(cfg, log + [Lost(gone)], c)) {
      assert Lookup(was, c) == After(cfg.frames, History(cfg, log, c));
      HistoryGrows(cfg, log, Lost(gone), c);
      if c in gone {
        AfterAppend(cfg.frames, History(cfg, log, c), Dropped);
      }
    }
  }

  /** A cell after the second loop of `_integrate`, which skips the hit ones. */
  function Missed(cfg: Config, was: map<Cell, CellState>, fr: Frame, hits: set<Cell>, c: Cell): Option<CellState> {
    if c in hits || c !in was then Lookup(was, c)
    else Next(cfg.frames, Lookup(was, c), if SeenFree(cfg, fr, c) then Free else Silent)
  }

  // ── the dictionary's order ──

  predicate Distinct(order: seq<Cell>) {
    forall i, j :: 0 <= i < j < |order| ==> order[i] != order[j]
  }

  /** The keys, each once, in the order they were inserted. */
  ghost predicate Lists(order: seq<Cell>, keys: set<Cell>) {
    Distinct(order) && forall c :: c in order <==> c in keys
  }

  predicate Before(order: seq<Cell>, c: Cell, d: Cell) {
    exists i, j :: 0 <= i < j < |order| && order[i] == c && order[j] == d
  }

  /** What deletions leave of the order. */
  function Keeping(order: seq<Cell>, keys: set<Cell>): seq<Cell> {
    if order == [] then []
    else
      var n := |order| - 1;
      Keeping(order[..n], keys) + if order[n] in keys then [order[n]] else []
  }

  lemma {:induction false} KeepingLists(order: seq<Cell>, keys: set<Cell>)
    requires Distinct(order)
    ensures forall c :: c in Keeping(order, keys) <==> c in order && c in keys
    ensures Distinct(Keeping(order, keys))
  {
    if order != [] {
      var n := |order| - 1;
      KeepingLists(order[..n], keys);
      assert order == order[..n] + [order[n]];
      assert order[n] !in order[..n];
    }
  }

  lemma {:induction false} KeepingAll(order: seq<Cell>, keys: set<Cell>)
    requires forall c :: c in order ==> c in keys
    ensures Keeping(order, keys) == order
  {
    if order != [] {
      var n := |order| - 1;
      assert forall c :: c in order[..n] ==> c in order;
      KeepingAll(order[..n], keys);
      assert order == order[..n] + [order[n]];
    }
  }

  lemma {:induction false} KeepingConcat(a: seq<Cell>, b: seq<Cell>, keys: set<Cell>)
    ensures Keeping(a + b, keys) == Keeping(a, keys) + Keeping(b, keys)
  {
    if b == [] {
      assert a + b == a;
    } else {
      var n := |b| - 1;
      KeepingConcat(a, b[..n], keys);
      assert (a + b)[..|a + b| - 1] == a + b[..n];
    }
  }

  /** `c` goes before `d`: confirmed longer ago, or as long ago and inserted earlier. */
  predicate Older(cells: map<Cell, CellState>, order: seq<Cell>, c: Cell, d: Cell)
    requires c in cells && d in cells
  {
    cells[c].lastHitTs < cells[d].lastHitTs || (cells[c].lastHitTs == cells[d].lastHitTs && Before(order, c, d))
  }

  lemma OlderTotal(cells: map<Cell, CellState>, order: seq<Cell>, c: Cell, d: Cell)
    requires c in cells && d in cells && c in order && d in order && c != d
    ensures Older(cells, order, c, d) || Older(cells, order, d, c)
  {
    var i :| 0 <= i < |order| && order[i] == c;
    var j :| 0 <= j < |order| && order[j] == d;
    if i < j { assert Before(order, c, d); } else { assert Before(order, d, c); }
  }

  lemma OlderTrans(cells: map<Cell, CellState>, order: seq<Cell>, c: Cell, d: Cell, e: Cell)
    requires c in cells && d in cells && e in cells && Distinct(order)
    requires Older(cells, order, c, d) && Older(cells, order, d, e)
    ensures Older(cells, order, c, e)
  {
    if Before(order, c, d) && Before(order, d, e) {
      var i, j :| 0 <= i < j < |order| && order[i] == c && order[j] == d;
      var k, l :| 0 <= k < l < |order| && order[k] == d && order[l] == e;
      assert j == k;
      assert Before(order, c, e);
    }
  }

  /** The first to be dropped. */
  predicate Stalest(cells: map<Cell, CellState>, order: seq<Cell>, c: Cell) {
    c in cells && forall m :: m in cells && m != c ==> Older(cells, order, c, m)
  }

  lemma {:induction false} StalestExists(cells: map<Cell, CellState>, order: seq<Cell>)
    requires cells != map[] && (forall c :: c in cells ==> c in order)
    requires Distinct(order)
    ensures exists c :: Stalest(cells, order, c)
    decreases |cells|
  {
    var c :| c in cells;
    var others := cells - {c};
    assert forall m :: m in cells ==> m == c || m in others;
    if others == map[] {
      assert Stalest(cells, order, c);
    } else {
      assert |others| < |cells| by { assert others.Keys == cells.Keys - {c}; }
      StalestExists(others, order);
      var d :| Stalest(others, order, d);
      OlderTotal(cells, order, c, d);
      hide Before;
      if Older(cells, order, c, d) {
        forall m | m in cells && m != c ensures Older(cells, order, c, m) {
          if m != d {
            assert Older(others, order, d, m);
            OlderTrans(cells, order, c, d, m);
          }
        }
        assert Stalest(cells, order, c);
      } else {
        forall m | m in cells && m != d ensures Older(cells, order, d, m) {
          if m != c { assert Older(others, order, d, m); }
        }
        assert Stalest(cells, order, d);
      }
    }
  }

  /** Dropping the stalest leaves only cells behind everything dropped. */
  lemma DropOne(was: map<Cell, CellState>, order: seq<Cell>, cells: map<Cell, CellState>, k: Cell)
    requires cells.Keys <= was.Keys && (forall c :: c in cells ==> cells[c] == was[c]) && Stalest(cells, order, k)
    requires forall c, m :: c in was && c !in cells && m in cells ==> Older(was, order, c, m)
    ensures (cells - {k}).Keys == cells.Keys - {k}
    ensures forall c, m :: c in was && c !in cells - {k} && m in cells - {k} ==> Older(was, order, c, m)
  {
    hide Before;
    forall m | m in cells && m != k ensures Older(was, order, k, m) {
      assert Older(cells, order, k, m);
    }
    hide Older;
  }

  /** Confirmed too long ago, or its centre beyond the keeping radius or within the clearing radius of the robot. */
  ghost predicate OutOfBounds(cfg: Config, c: Cell, st: CellState, now: real, x: real, y: real) {
    var dx, dy := (c.i as real + 0.5) * cfg.cellM - x, (c.j as real + 0.5) * cfg.cellM - y;
    || (st.confirmed && cfg.ttlS > 0.0 && now > st.lastHitTs + cfg.ttlS)
    || !(Square(cfg.clearRadiusM) <= Square(dx) + Square(dy) <= Square(cfg.keepRadiusM))
  }

  /** `c` was last confirmed before `k`, or at the same time and inserted earlier. */
  ghost predicate Staler(cells: map<Cell, CellState>, order: seq<Cell>, c: Cell, k: Cell)
    requires c in cells && k in cells
  {
    cells[c].lastHitTs <= cells[k].lastHitTs && (cells[c].lastHitTs == cells[k].lastHitTs ==> Before(order, c, k))
  }

  /** What is kept is as it was, and not out of bounds. */
  ghost predicate KeptInBounds(cfg: Config, was: map<Cell, CellState>, kept: map<Cell, CellState>, now: real, x: real, y: real) {
    forall c :: c in kept ==> c in was && kept[c] == was[c] && !OutOfBounds(cfg, c, was[c], now, x, y)
  }

  /** What is dropped though in bounds made way for cells that are all less stale, as many as are allowed. */
  ghost predicate CrowdedOut(cfg: Config, was: map<Cell, CellState>, order: seq<Cell>, kept: map<Cell, CellState>,
                             now: real, x: real, y: real)
    requires kept.Keys <= was.Keys
  {
    forall c :: c in was && c !in kept && !OutOfBounds(cfg, c, was[c], now, x, y) ==>
      |kept| == Max(0, cfg.maxCells) && forall k :: k in kept ==> Staler(was, order, c, k)
  }

  /** What an expiry leaves: nothing out of bounds, at most `maxCells`, and crowded out only the stalest, of equals the first inserted. */
  ghost predicate Expires(cfg: Config, was: map<Cell, CellState>, order: seq<Cell>, kept: map<Cell, CellState>,
                          now: real, x: real, y: real) {
    && KeptInBounds(cfg, was, kept, now, x, y) && kept.Keys <= was.Keys
    && CrowdedOut(cfg, was, order, kept, now, x, y)
    && |kept| <= Max(0, cfg.maxCells)
  }

  /** `kept` are the cells of `was` that are not out of bounds. */
  ghost predicate InBounds(cfg: Config, was: map<Cell, CellState>, kept: map<Cell, CellState>, now: real, x: real, y: real) {
    && kept.Keys <= was.Keys && (forall c :: c in kept ==> kept[c] == was[c])
    && forall c :: c in was ==> (c in kept <==> !OutOfBounds(cfg, c, was[c], now, x, y))
  }

  lemma ExpiredIs(cfg: Config, c: Cell, st: CellState, now: real, x: real, y: real)
    ensures Expired(cfg, c, st, now, x, y) <==> OutOfBounds(cfg, c, st, now, x, y)
  {
    hide Square;
  }

  /** The checks an update makes before integrating a message. */
  predicate Accepts(cfg: Config, lastKey: Option<int>, msg: Option<Message>, posed: bool, now: real, omega: real) {
    && cfg.enabled && msg.Some? && posed
    && (msg.value.key.None? || msg.value.key != lastKey)
    && 0.0 <= now - Sent(msg.value) <= cfg.staleS
    && AbsReal(omega) <= cfg.maxAbsOmega
  }

  lemma IntegrateSteps(cfg: Config, was: map<Cell, CellState>, mid: map<Cell, CellState>, now: map<Cell, CellState>,
                       fr: Frame, hits: set<Cell>)
    requires hits == set c | c in fr.obs && IsHit(cfg, fr, c)
    requires forall c {:trigger Lookup(mid, c)} ::
      Lookup(mid, c) == if c in hits then Next(cfg.frames, Lookup(was, c), Hit(fr.ts)) else Lookup(was, c)
    requires forall c {:trigger Lookup(now, c)} :: Lookup(now, c) == Missed(cfg, mid, fr, hits, c)
    ensures Integrates(cfg, was, now, fr)
  {
    forall c ensures Lookup(now, c) == Next(cfg.frames, Lookup(was, c), Says(cfg, fr, c)) {
      assert Lookup(mid, c) == if c in hits then Next(cfg.frames, Lookup(was, c), Hit(fr.ts)) else Lookup(was, c);
    }
  }

  lemma NothingExpires(cfg: Config, order: seq<Cell>, now: real, x: real, y: real)
    ensures Expires(cfg, map[], order, map[], now, x, y)
  {
  }

  lemma KeptOf(was: map<Cell, CellState>, kept: map<Cell, CellState>)
    requires kept.Keys <= was.Keys && forall c :: c in kept ==> kept[c] == was[c]
    ensures kept == was - (was.Keys - kept.Keys)
  {
  }

  lemma OlderMeans(was: map<Cell, CellState>, cells: map<Cell, CellState>, order: seq<Cell>, c: Cell, k: Cell)
    requires c in cells && k in cells && c in was && k in was && was[c] == cells[c] && was[k] == cells[k] && Older(cells, order, c, k)
    ensures Staler(was, order, c, k)
  {
  }

  lemma MakesWay(was: map<Cell, CellState>, order: seq<Cell>, mid: map<Cell, CellState>, kept: map<Cell, CellState>, limit: int, c: Cell)
    requires kept.Keys <= mid.Keys <= was.Keys && (forall k :: k in mid ==> mid[k] == was[k])
    requires kept != mid ==> |kept| == limit
    requires forall d, k :: d in mid && d !in kept && k in kept ==> Older(mid, order, d, k)
    requires c in mid && c !in kept
    ensures |kept| == limit && forall k :: k in kept ==> Staler(was, order, c, k)
  {
    hide Older, Staler;
    forall k | k in kept ensures Staler(was, order, c, k) {
      OlderMeans(was, mid, order, c, k);
    }
  }

  lemma WereCrowded(cfg: Config, was: map<Cell, CellState>, order: seq<Cell>, mid: map<Cell, CellState>, kept: map<Cell, CellState>,
                    now: real, x: real, y: real)
    requires InBounds(cfg, was, mid, now, x, y) && kept.Keys <= mid.Keys && (kept != mid ==> |kept| == Max(0, cfg.maxCells))
    requires forall c, k :: c in mid && c !in kept && k in kept ==> Older(mid, order, c, k)
    ensures kept.Keys <= was.Keys && CrowdedOut(cfg, was, order, kept, now, x, y)
  {
    hide OutOfBounds, Older, Staler, Max;
    forall c | c in was && c !in kept && !OutOfBounds(cfg, c, was[c], now, x, y)
      ensures |kept| == Max(0, cfg.maxCells) && forall k :: k in kept ==> Staler(was, order, c, k)
    {
      MakesWay(was, order, mid, kept, Max(0, cfg.maxCells), c);
    }
  }

  lemma StayInBounds(cfg: Config, was: map<Cell, CellState>, mid: map<Cell, CellState>, kept: map<Cell, CellState>,
                     now: real, x: real, y: real)
    requires InBounds(cfg, was, mid, now, x, y) && kept.Keys <= mid.Keys && forall c :: c in kept ==> kept[c] == mid[c]
    ensures KeptInBounds(cfg, was, kept, now, x, y) && kept.Keys <= was.Keys && kept == was - (was.Keys - kept.Keys)
  {
    hide OutOfBounds;
    KeptOf(was, kept);
  }

  lemma ExpireParts(cfg: Config, was: map<Cell, CellState>, order: seq<Cell>, mid: map<Cell, CellState>, kept: map<Cell, CellState>,
                    now: real, x: real, y: real)
    requires InBounds(cfg, was, mid, now, x, y)
    requires kept.Keys <= mid.Keys && forall c :: c in kept ==> kept[c] == mid[c]
    requires |kept| <= Max(0, cfg.maxCells) && (kept != mid ==> |kept| == Max(0, cfg.maxCells))
    requires forall c, k :: c in mid && c !in kept && k in kept ==> Older(mid, order, c, k)
    ensures Expires(cfg, was, order, kept, now, x, y) && kept == was - (was.Keys - kept.Keys)
  {
    hide InBounds, KeptInBounds, CrowdedOut, OutOfBounds, Older, Max;
    StayInBounds(cfg, was, mid, kept, now, x, y);
    WereCrowded(cfg, was, order, mid, kept, now, x, y);
  }

  lemma ExpiresWithin(cfg: Config, was: map<Cell, CellState>, order: seq<Cell>, kept: map<Cell, CellState>, now: real, x: real, y: real)
    requires Expires(cfg, was, order, kept, now, x, y)
    ensures kept.Keys <= was.Keys
  {
  }

  lemma ExpiresFits(cfg: Config, was: map<Cell, CellState>, order: seq<Cell>, kept: map<Cell, CellState>, now: real, x: real, y: real)
    requires Expires(cfg, was, order, kept, now, x, y)
    ensures |kept| <= Max(0, cfg.maxCells)
  {
  }

  lemma ListsAll(order: seq<Cell>, keys: set<Cell>)
    requires Lists(order, keys)
    ensures Keeping(order, keys) == order
  {
    KeepingAll(order, keys);
  }

  class DepthObstacleMemory {
    const cfg: Config
    /** The dictionary: what it maps to, and its keys in insertion order. */
    var cells: map<Cell, CellState>
    var order: seq<Cell>
    var lastKey: Option<int>
    ghost var log: seq<Entry>

    ghost predicate Valid()
      reads this
    {
      Agrees(cfg, cells, log) && Lists(order, cells.Keys)
    }

    constructor (cfg: Config)
      ensures Valid() && cells == map[] && lastKey == None && log == [] && this.cfg == cfg
    {
      this.cfg := cfg;
      cells, order, lastKey, log := map[], [], None, [];
    }

    method Reset()
      requires Valid()
      modifies this
      ensures Valid() && cells == map[] && lastKey == None
      ensures log == old(log) + [Lost(old(cells).Keys)]
    {
      hide Agrees;
      LossAgrees(cfg, cells, map[], cells.Keys, log);
      log := log + [Lost(cells.Keys)];
      cells, order, lastKey := map[], [], None;
    }

    /** The first loop of `_integrate`: every cell the frame hits. */
    method CountHits(fr: Frame) returns (hits: set<Cell>)
      requires Lists(order, cells.Keys)
      modifies `cells, `order
      ensures Lists(order, cells.Keys) && old(order) <= order
      ensures hits == set c | c in fr.obs && IsHit(cfg, fr, c)
      ensures forall c {:trigger Lookup(cells, c)} ::
        Lookup(cells, c) == if c in hits then Next(cfg.frames, Lookup(old(cells), c), Hit(fr.ts)) else Lookup(old(cells), c)
    {
      hits := set c | c in fr.obs && IsHit(cfg, fr, c);
      var todo := hits;
      ghost var was := cells;
      while todo != {}
        invariant todo <= hits && Lists(order, cells.Keys) && old(order) <= order
        invariant forall c {:trigger Lookup(cells, c)} ::
          Lookup(cells, c) == if c in hits - todo then Next(cfg.frames, Lookup(was, c), Hit(fr.ts)) else Lookup(was, c)
        decreases |todo|
      {
        ghost var mid := cells;
        var k :| k in todo;
        todo := todo - {k};
        assert Lookup(cells, k) == Lookup(was, k);
        var st := if k in cells then cells[k] else FRESH;
        if k !in cells { order := order + [k]; }
        st := st.(hitStreak := st.hitStreak + 1, freeStreak := 0);
        if st.hitStreak >= cfg.frames.Confirm() {
          st := st.(confirmed := true, lastHitTs := fr.ts);
        }
        cells := cells[k := st];
        forall c ensures c != k ==> Lookup(cells, c) == Lookup(mid, c) {
        }
      }
    }

    /** The second loop: every other known cell. */
    method CountMisses(fr: Frame, hits: set<Cell>)
      requires Lists(order, cells.Keys)
      modifies `cells, `order
      ensures Lists(order, cells.Keys) && order == Keeping(old(order), cells.Keys)
      ensures forall c {:trigger Lookup(cells, c)} :: Lookup(cells, c) == Missed(cfg, old(cells), fr, hits, c)
    {
      var todo := cells.Keys;
      ghost var was := cells;
      while todo != {}
        invariant todo <= was.Keys && cells.Keys <= was.Keys && order == old(order)
        invariant forall c {:trigger Lookup(cells, c)} ::
          Lookup(cells, c) == if c in todo then Lookup(was, c) else Missed(cfg, was, fr, hits, c)
        decreases |todo|
      {
        ghost var mid := cells;
        var k :| k in todo;
        todo := todo - {k};
        assert Lookup(cells, k) == Lookup(was, k);
        if k in hits { continue; }
        var st := cells[k].(hitStreak := 0);
        if !st.confirmed {
          cells := cells - {k};
        } else if SeenFree(cfg, fr, k) {
          st := st.(freeStreak := st.freeStreak + 1);
          cells := if st.freeStreak >= cfg.frames.Clear() then cells - {k} else cells[k := st];
        } else {
          cells := cells[k := st.(freeStreak := 0)];
        }
        forall c ensures c != k ==> Lookup(cells, c) == Lookup(mid, c) {
        }
      }
      KeepingLists(order, cells.Keys);
      order := Keeping(order, cells.Keys);
    }

    /** `_integrate` */
    method Integrate(formatOk: bool, fr: Frame) returns (ok: bool)
      requires Valid()
      modifies `cells, `order, `log
      ensures Valid() && ok == formatOk
      ensures ok ==> log == old(log) + [Integrated(fr)] && Keeping(old(order), cells.Keys) <= order
      ensures !ok ==> log == old(log) && cells == old(cells) && order == old(order)
    {
      hide Agrees;
      if !formatOk { return false; }
      ghost var was := cells;
      var hits := CountHits(fr);
      ghost var mid, line := cells, order;
      CountMisses(fr, hits);
      assert line == old(order) + line[|old(order)|..];
      KeepingConcat(old(order), line[|old(order)|..], cells.Keys);
      IntegrateSteps(cfg, was, mid, cells, fr, hits);
      IntegrateAgrees(cfg, was, cells, fr, log);
      log := log + [Integrated(fr)];
      return true;
    }

    /** The first half of `_expire`: too old, too far, or under the robot. */
    method DropExpired(now: real, x: real, y: real)
      modifies `cells
      ensures InBounds(cfg, old(cells), cells, now, x, y)
    {
      hide Expired, OutOfBounds;
      var todo := cells.Keys;
      ghost var was := cells;
      while todo != {}
        invariant todo <= was.Keys && cells.Keys <= was.Keys
        invariant forall c :: c in was ==> (c in cells <==> c in todo || !OutOfBounds(cfg, c, was[c], now, x, y))
        invariant forall c :: c in cells ==> cells[c] == was[c]
        decreases |todo|
      {
        var k :| k in todo;
        todo := todo - {k};
        ExpiredIs(cfg, k, cells[k], now, x, y);
        if Expired(cfg, k, cells[k], now, x, y) {
          cells := cells - {k};
        }
      }
    }

    /** The second half: while there are too many, the stalest go first, of equals the first inserted. */
    method DropStalest()
      requires Distinct(order) && forall c :: c in cells ==> c in order
      modifies `cells
      ensures cells.Keys <= old(cells).Keys && forall c :: c in cells ==> cells[c] == old(cells)[c]
      ensures |cells| <= Max(0, cfg.maxCells)
      ensures cells != old(cells) ==> |cells| == Max(0, cfg.maxCells)
      ensures forall c, k :: c in old(cells) && c !in cells && k in cells ==> Older(old(cells), order, c, k)
    {
      ghost var was := cells;
      hide Older;
      while |cells| > cfg.maxCells && cells != map[]
        invariant cells.Keys <= was.Keys && forall c :: c in cells ==> cells[c] == was[c]
        invariant cells != was ==> |cells| >= Max(0, cfg.maxCells)
        invariant forall c, k :: c in was && c !in cells && k in cells ==> Older(was, order, c, k)
        decreases |cells|
      {
        StalestExists(cells, order);
        var k :| k in cells && Stalest(cells, order, k);
        DropOne(was, order, cells, k);
        cells := cells - {k};
      }
    }

    /** Both halves. */
    method Prune(now: real, x: real, y: real)
      requires Distinct(order) && forall c :: c in order <==> c in cells
      modifies `cells
      ensures Expires(cfg, old(cells), order, cells, now, x, y) && cells == old(cells) - (old(cells).Keys - cells.Keys)
    {
      hide OutOfBounds, Expires, Older;
      ghost var was := cells;
      if cells == map[] {
        NothingExpires(cfg, order, now, x, y);
        return;
      }
      DropExpired(now, x, y);
      ghost var mid := cells;
      DropStalest();
      ExpireParts(cfg, was, order, mid, cells, now, x, y);
    }

    /** `_expire` */
    method Expire(now: real, x: real, y: real)
      requires Valid()
      modifies `cells, `order, `log
      ensures Valid() && Expires(cfg, old(cells), old(order), cells, now, x, y) && order == Keeping(old(order), cells.Keys)
      ensures log == old(log) + [Lost(old(cells).Keys - cells.Keys)]
    {
      hide Agrees, Expires;
      ghost var was := cells;
      Prune(now, x, y);
      LossAgrees(cfg, was, cells, was.Keys - cells.Keys, log);
      ExpiresWithin(cfg, was, order, cells, now, x, y);
      KeepingLists(order, cells.Keys);
      order := Keeping(order, cells.Keys);
      log := log + [Lost(was.Keys - cells.Keys)];
    }

    /** `update`: integrate a new, fresh message taken while turning slowly, then expire. */
    method Update(msg: Option<Message>, now: real, x: real, y: real, posed: bool, omega: real) returns (integrated: bool)
      requires Valid()
      modifies this
      ensures Valid()
      ensures integrated <==> Accepts(cfg, old(lastKey), msg, posed, now, omega) && msg.value.formatOk
      ensures integrated <==>
        && cfg.enabled && msg.Some? && posed && msg.value.formatOk && (msg.value.key.None? || msg.value.key != old(lastKey))
        && 0.0 <= now - (if msg.value.ts.Some? then msg.value.ts.value else 0.0) <= cfg.staleS && AbsReal(omega) <= cfg.maxAbsOmega
      ensures lastKey == if Accepts(cfg, old(lastKey), msg, posed, now, omega) then msg.value.key else old(lastKey)
      ensures !cfg.enabled ==> cells == old(cells) && log == old(log)
      ensures cfg.enabled ==> |cells| <= Max(0, cfg.maxCells) && |log| > 0 && log[|log| - 1].Lost?
      ensures cfg.enabled ==> log[..|log| - 1] == old(log) + (if integrated then [Integrated(Taken(msg.value, now))] else [])
      ensures cfg.enabled ==> exists full, line ::
        Agrees(cfg, full, log[..|log| - 1]) && Lists(line, full.Keys) && Keeping(old(order), full.Keys) <= line
        && Expires(cfg, full, line, cells, now, x, y) && order == Keeping(line, cells.Keys)
    {
      hide Agrees, Expires, Keeping, Lists, Taken, Distinct;
      if !cfg.enabled { return false; }
      integrated := false;
      if msg.Some? && posed && (msg.value.key.None? || msg.value.key != lastKey) {
        var age := now - Sent(msg.value);
        if 0.0 <= age <= cfg.staleS && AbsReal(omega) <= cfg.maxAbsOmega {
          lastKey := msg.value.key;
          integrated := Integrate(msg.value.formatOk, Taken(msg.value, now));
        }
      }
      ghost var mid, full, line := log, cells, order;
      if !integrated { ListsAll(order, cells.Keys); }
      assert Agrees(cfg, full, mid) && Lists(line, full.Keys);
      Expire(now, x, y);
      ExpiresFits(cfg, full, line, cells, now, x, y);
      assert log[..|log| - 1] == mid;
    }
  }

  /**
   At any time, and for every cell, the memory holds the cell exactly when its
   history says so: hit often enough in a row since it was last dropped, and not
   seen as floor often enough in a row since.
   */
  lemma MemoryIsHistory(cfg: Config, cells: map<Cell, CellState>, log: seq<Entry>, c: Cell)
    requires Agrees(cfg, cells, log)
    ensures Known(Lookup(cells, c)) <==> Remembered(cfg.frames, History(cfg, log, c))
  {
    hide Remembered, Lookup, History;
    assert Lookup(cells, c) == After(cfg.frames, History(cfg, log, c));
    RememberedIff(cfg.frames, History(cfg, log, c));
  }
}
