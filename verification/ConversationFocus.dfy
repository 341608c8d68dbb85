/** The satellites' conversation focus (backend/src/chats/conversation-focus.service.ts): a focus
    is only dropped when something looks at it after its expiry. The service is proved to act on
    the cell of one satellite at a time; over any use of a cell it answers like a service that
    drops a focus at the very moment it expires. */
module ConversationFocus {
  import opened Options

  const FOCUS_MAX_TTL_MS: int := 60 * 60 * 1000

  datatype Focus = Focus(chatId: string, expiresAt: int)

  /** What the service keeps about one satellite of one user. */
  datatype Cell = Cell(focus: Option<Focus>, ended: Option<int>)

  function Ttl(ttlMs: int): (ttl: int)
    ensures 1000 <= ttl <= FOCUS_MAX_TTL_MS
  {
    var atLeast := if ttlMs < 1000 then 1000 else ttlMs;
    if atLeast > FOCUS_MAX_TTL_MS then FOCUS_MAX_TTL_MS else atLeast
  }

  function Set(c: Cell, chatId: string, ttlMs: int, now: int): Cell {
    c.(focus := Some(Focus(chatId, now + Ttl(ttlMs))))
  }

  function Clear(c: Cell, now: int): Cell {
    if c.focus.Some? then Cell(None, Some(now)) else c
  }

  /** `get`: an expired focus becomes an end. */
  function Look(c: Cell, now: int): Cell {
    if c.focus.Some? && c.focus.value.expiresAt <= now then Cell(None, Some(c.focus.value.expiresAt)) else c
  }

  function Chat(c: Cell): Option<string> {
    if c.focus.Some? then Some(c.focus.value.chatId) else None
  }

  function Key(userId: string, satellite: string): string {
    userId + "\n" + satellite
  }

  // ── The service ───────────────────────────────────────────────────────────────

  class ConversationFocusService {
    var focus: map<string, Focus>
    var endedAt: map<string, int>

    constructor ()
      ensures forall k :: At(k) == Cell(None, None)
    {
      focus, endedAt := map[], map[];
    }

    ghost function At(k: string): Cell
      reads this
    {
      Cell(if k in focus then Some(focus[k]) else None, if k in endedAt then Some(endedAt[k]) else None)
    }

    method SetFocus(userId: string, satellite: string, chatId: string, ttlMs: int, now: int) returns (view: Focus)
      modifies this
      ensures forall k :: At(k) == if k == Key(userId, satellite) then Set(old(At(k)), chatId, ttlMs, now) else old(At(k))
      ensures view == Focus(chatId, now + Ttl(ttlMs))
    {
      var k := Key(userId, satellite);
      view := Focus(chatId, now + Ttl(ttlMs));
      focus := focus[k := view];
    }

    method ClearFocus(userId: string, satellite: string, now: int)
      modifies this
      ensures forall k :: At(k) == if k == Key(userId, satellite) then Clear(old(At(k)), now) else old(At(k))
    {
      var k := Key(userId, satellite);
      if k in focus {
        focus := map x <- focus | x != k :: focus[x];
        endedAt := endedAt[k := now];
      }
    }

    /** `satellite` is "" when the entry point reported none. */
    method Get(userId: string, satellite: string, now: int) returns (chat: Option<string>)
      modifies this
      ensures satellite == "" ==> chat == None && forall k :: At(k) == old(At(k))
      ensures satellite != "" ==> forall k :: At(k) == if k == Key(userId, satellite) then Look(old(At(k)), now) else old(At(k))
      ensures satellite != "" ==> chat == Chat(At(Key(userId, satellite)))
    {
      if satellite == "" {
        return None;
      }
      chat := GetKey(Key(userId, satellite), now);
    }

    method GetKey(k: string, now: int) returns (chat: Option<string>)
      modifies this
      ensures forall x :: At(x) == if x == k then Look(old(At(k)), now) else old(At(x))
      ensures chat == Chat(At(k))
    {
      if k !in focus {
        return None;
      }
      if focus[k].expiresAt <= now {
        endedAt := endedAt[k := focus[k].expiresAt];
        focus := map x <- focus | x != k :: focus[x];
        return None;
      }
      return Some(focus[k].chatId);
    }

    method FreshSince(userId: string, satellite: string, now: int) returns (since: Option<int>)
      modifies this
      ensures satellite == "" ==> since == None && forall k :: At(k) == old(At(k))
      ensures satellite != "" ==> forall k :: At(k) == if k == Key(userId, satellite) then Look(old(At(k)), now) else old(At(k))
      ensures satellite != "" ==> since == At(Key(userId, satellite)).ended
    {
      if satellite == "" {
        return None;
      }
      var _ := Get(userId, satellite, now);
      var k := Key(userId, satellite);
      since := if k in endedAt then Some(endedAt[k]) else None;
    }

    /** The user's satellites with an unexpired focus (on a chat whose id is not empty), by their
        keys; every named satellite of the user is looked at, no other cell is touched. */
    method List(userId: string, now: int) returns (views: map<string, Focus>)
      modifies this
      ensures forall k :: At(k) == if Mine(userId, k) then Look(old(At(k)), now) else old(At(k))
      ensures forall k :: k in views <==> Mine(userId, k) && At(k).focus.Some? && At(k).focus.value.chatId != ""
      ensures forall k <- views :: At(k).focus == Some(views[k]) && views[k].expiresAt > now
    {
      LookAtAll((set k | k in focus && Mine(userId, k)), now);
      views := map k <- focus | Mine(userId, k) && focus[k].chatId != "" :: focus[k];
      assert forall k <- views :: At(k).focus == Some(focus[k]);
    }

    method LookAtAll(keys: set<string>, now: int)
      modifies this
      ensures forall k :: At(k) == if k in keys then Look(old(At(k)), now) else old(At(k))
    {
      var todo := keys;
      while todo != {}
        invariant todo <= keys
        invariant forall k :: At(k) == if k in keys && k !in todo then Look(old(At(k)), now) else old(At(k))
        decreases todo
      {
        var k :| k in todo;
        var _ := GetKey(k, now);
        todo := todo - {k};
      }
    }
  }

  /** The keys of the user's satellites that have a name. */
  predicate Mine(userId: string, k: string) {
    Key(userId, "") <= k && |k| > |Key(userId, "")|
  }

  lemma MineAreTheUsersKeys(userId: string, k: string)
    ensures Mine(userId, k) <==> exists s :: s != "" && k == Key(userId, s)
  {
    if Mine(userId, k) {
      var s := k[|Key(userId, "")|..];
      assert k == Key(userId, "") + s && Key(userId, "") + s == Key(userId, s);
    }
    assert forall s :: Key(userId, s) == Key(userId, "") + s;
  }

  /** Users whose ids hold no line break never share a cell. */
  lemma {:induction false} UsersDoNotShare(u1: string, s1: string, u2: string, s2: string)
    requires '\n' !in u1 && '\n' !in u2 && Key(u1, s1) == Key(u2, s2)
    ensures u1 == u2 && s1 == s2
  {
    var k1, k2 := Key(u1, s1), Key(u2, s2);
    assert u1 != [] ==> k1[0] == u1[0] && u1[0] in u1 && k1[1..] == Key(u1[1..], s1);
    assert u2 != [] ==> k2[0] == u2[0] && u2[0] in u2 && k2[1..] == Key(u2[1..], s2);
    if u1 == [] {
      assert k1[0] == '\n' && k1[1..] == s1 && k2[1..] == s2;
    } else {
      UsersDoNotShare(u1[1..], s1, u2[1..], s2);
    }
  }

  // ── Lazy expiry against eager expiry ──────────────────────────────────────────

  datatype Act = ASet(chatId: string, ttlMs: int) | AClear | ALook

  /** A cell of the service, the same cell of a service that drops a focus when it expires, the
      time of the last action, and whether the last end was a clear that came after the expiry. */
  datatype Twin = Twin(lazy: Cell, eager: Cell, late: bool, at: int)

  function Do(c: Cell, act: Act, now: int): Cell {
    match act
    case ASet(chatId, ttlMs) => Set(c, chatId, ttlMs, now)
    case AClear => Clear(c, now)
    case ALook => Look(c, now)
  }

  function Next(w: Twin, act: Act, now: int): Twin
  {
    Twin(Do(w.lazy, act, now), Do(Look(w.eager, now), act, now),
         match act
         case ASet(_, _) => false
         case AClear => if w.lazy.focus.Some? then w.lazy.focus.value.expiresAt < now else w.late
         case ALook => w.late,
         now)
  }

  const FRESH := Twin(Cell(None, None), Cell(None, None), false, 0)

  /** Actions at times that never go back. */
  predicate Timed(w: Twin, acts: seq<(Act, int)>)
    decreases |acts|
  {
    acts == [] || (w.at <= acts[0].1 && Timed(Next(w, acts[0].0, acts[0].1), acts[1..]))
  }

  function After(w: Twin, acts: seq<(Act, int)>): Twin
    decreases |acts|
  {
    if acts == [] then w else After(Next(w, acts[0].0, acts[0].1), acts[1..])
  }

  ghost predicate Inv(w: Twin)
  {
    && (w.lazy.ended.Some? ==> w.lazy.ended.value <= w.at)
    && (if w.lazy.focus.Some? then
          && !w.late
          && (w.lazy.ended.Some? ==> w.lazy.ended.value < w.lazy.focus.value.expiresAt)
          && (w.eager.focus == w.lazy.focus
              || (w.eager == Cell(None, Some(w.lazy.focus.value.expiresAt)) && w.lazy.focus.value.expiresAt <= w.at))
        else
          && w.eager.focus.None?
          && (w.lazy.ended.Some? <==> w.eager.ended.Some?)
          && (w.late ==> w.lazy.ended.Some?)
          && (w.lazy.ended.Some? ==>
                w.eager.ended.value <= w.lazy.ended.value && (w.eager.ended.value == w.lazy.ended.value <==> !w.late)))
  }

  lemma {:induction false} RunKeepsInv(w: Twin, acts: seq<(Act, int)>)
    requires Inv(w) && Timed(w, acts)
    ensures Inv(After(w, acts)) && w.at <= After(w, acts).at
    decreases |acts|
  {
    if acts != [] {
      RunKeepsInv(Next(w, acts[0].0, acts[0].1), acts[1..]);
    }
  }

  /** Whatever was done to a cell, with a clock that never goes back: at any later moment `get`
      and `list` see the focus the eager service has; and with no focus active, `freshSince` is
      null exactly when the eager one is, never earlier, and equal exactly unless the last end
      was a clear that met an expired focus nobody had looked at. */
  lemma LazyAnswersLikeEager(acts: seq<(Act, int)>, now: int)
    requires Timed(FRESH, acts) && After(FRESH, acts).at <= now
    ensures var w := After(FRESH, acts);
            var l, e := Look(w.lazy, now), Look(w.eager, now);
            && l.focus == e.focus
            && (l.focus.None? ==>
                  && (l.ended.Some? <==> e.ended.Some?)
                  && (l.ended.Some? ==> e.ended.value <= l.ended.value && (e.ended.value == l.ended.value <==> !w.late)))
  {
    RunKeepsInv(FRESH, acts);
  }

  /** What `freshSince` returned once, it never undercuts later. */
  lemma {:induction false} FreshSinceNeverDecreases(w: Twin, acts: seq<(Act, int)>, now: int)
    requires Inv(w) && Timed(w, acts) && After(w, acts).at <= now && w.lazy.ended.Some?
    ensures var later := Look(After(w, acts).lazy, now).ended;
            later.Some? && w.lazy.ended.value <= later.value
    decreases |acts|
  {
    RunKeepsInv(w, acts);
    if acts != [] {
      var w1 := Next(w, acts[0].0, acts[0].1);
      RunKeepsInv(w, [acts[0]]);
      FreshSinceNeverDecreases(w1, acts[1..], now);
    }
  }

  // ── How long a focus lasts ────────────────────────────────────────────────────

  /** A focus is answered from the moment it is set until its lifetime is over, at least a second
      and at most an hour after; then it has ended at that very moment, whenever it is looked at. */
  lemma FocusLasts(c: Cell, chatId: string, ttlMs: int, setAt: int, now: int)
    ensures var end := setAt + (if ttlMs < 1_000 then 1_000 else if ttlMs > 3_600_000 then 3_600_000 else ttlMs);
            var seen := Look(Set(c, chatId, ttlMs, setAt), now);
            if now < end then Chat(seen) == Some(chatId) && seen.ended == c.ended
            else Chat(seen) == None && seen.ended == Some(end)
  {
  }

  /** A cleared focus ends when it is cleared; clearing where there is none ends nothing. */
  lemma ClearEndsNow(c: Cell, now: int)
    ensures var cleared := Clear(c, now);
            && Chat(cleared) == None
            && cleared.ended == if Chat(c).Some? then Some(now) else c.ended
  {
  }
}
