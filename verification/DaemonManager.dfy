/** The executor's daemon manager (executor/src/daemon-manager.ts) with its mutable map and
    entry objects. Every operation is proved to act as the function of `ExecutorTable` on the
    table the objects represent. */
module DaemonManager {
  import opened Collections
  import opened ExecutorTable
  import opened JsText

  const TAIL_LINES := 20
  const TAIL_LINE_CHARS := 300

  class DaemonEntry {
    const id: DaemonId
    const pid: int
    const startedAt: int
    const spawned: bool
    ghost const handle: nat
    var stopping: bool
    var killed: bool
    var tail: seq<string>

    constructor (id: DaemonId, pid: int, startedAt: int, spawned: bool, ghost handle: nat)
      ensures this.id == id && this.pid == pid && this.startedAt == startedAt && this.spawned == spawned
      ensures this.handle == handle && !stopping && !killed && tail == []
    {
      this.id, this.pid, this.startedAt, this.spawned := id, pid, startedAt, spawned;
      this.handle := handle;
      stopping, killed, tail := false, false, [];
    }

    ghost function AsChild(): Child
      reads this
    {
      Child(id, pid, startedAt, spawned, stopping, killed)
    }

    /** Marked, and its process sent the signal if it has one. */
    method AskToStop()
      modifies this`stopping, this`killed
      ensures stopping && killed == spawned
      ensures AsChild() == old(AsChild()).(stopping := true, killed := spawned)
    {
      stopping, killed := true, spawned;
    }

    method PushLine(line: string)
      requires |tail| <= TAIL_LINES
      modifies this`tail
      ensures |tail| <= TAIL_LINES && tail == PushedLine(old(tail), line)
    {
      if !Blank(line) {
        tail := tail + [CutLine(line)];
        if |tail| > TAIL_LINES {
          tail := tail[1..];
        }
      }
    }

    /** Output lines that are not blank are appended, each cut to TAIL_LINE_CHARS; only the
        last TAIL_LINES stay. */
    method PushTail(lines: seq<string>)
      requires |tail| <= TAIL_LINES
      modifies this`tail
      ensures tail == LastOf(old(tail) + Kept(lines), TAIL_LINES)
    {
      PushedKeepsLast(tail, lines);
      for i := 0 to |lines|
        invariant |tail| <= TAIL_LINES && Pushed(tail, lines[i..]) == Pushed(old(tail), lines)
      {
        assert lines[i..][1..] == lines[i + 1..];
        PushLine(lines[i]);
      }
    }
  }

  function PushedLine(tail: seq<string>, line: string): seq<string> {
    if Blank(line) then tail else LastOf(tail + [CutLine(line)], TAIL_LINES)
  }

  function Pushed(tail: seq<string>, lines: seq<string>): seq<string>
    decreases |lines|
  {
    if lines == [] then tail
    else Pushed(PushedLine(tail, lines[0]), lines[1..])
  }

  lemma {:induction false} PushedKeepsLast(tail: seq<string>, lines: seq<string>)
    requires |tail| <= TAIL_LINES
    ensures Pushed(tail, lines) == LastOf(tail + Kept(lines), TAIL_LINES)
    decreases |lines|
  {
    if lines != [] && !Blank(lines[0]) {
      var cut, rest := CutLine(lines[0]), Kept(lines[1..]);
      PushedKeepsLast(LastOf(tail + [cut], TAIL_LINES), lines[1..]);
      assert tail + Kept(lines) == tail + [cut] + rest;
      LastOfAppend(tail + [cut], rest, TAIL_LINES);
    } else if lines != [] {
      PushedKeepsLast(tail, lines[1..]);
      assert Kept(lines) == Kept(lines[1..]);
    } else {
      assert tail + Kept(lines) == tail;
    }
  }

  function CutLine(line: string): string {
    if |line| > TAIL_LINE_CHARS then line[..TAIL_LINE_CHARS] else line
  }

  function Kept(lines: seq<string>): seq<string> {
    if lines == [] then [] else (if Blank(lines[0]) then [] else [CutLine(lines[0])]) + Kept(lines[1..])
  }

  function LastOf<T>(s: seq<T>, n: nat): seq<T> {
    if |s| > n then s[|s| - n..] else s
  }

  lemma LastOfAppend<T>(s: seq<T>, more: seq<T>, n: nat)
    ensures LastOf(s + more, n) == LastOf(LastOf(s, n) + more, n)
  {
  }

  class Manager {
    var daemons: map<DaemonId, DaemonEntry>
    /** Every entry ever made, by spawn number, and the table they stand for. */
    ghost var spawned: seq<DaemonEntry>
    ghost var table: Table

    /** The objects are those of the table. */
    ghost predicate Mirrors()
      reads this, spawned
    {
      && |spawned| == table.spawns
      && (forall h | 0 <= h < |spawned| :: spawned[h].handle == h)
      && (forall h <- table.children :: h < |spawned| && spawned[h].AsChild() == table.children[h])
      && (forall id :: id in daemons <==> id in table.entries)
      && (forall id <- daemons :: table.entries[id] < |spawned| && spawned[table.entries[id]] == daemons[id])
    }

    ghost predicate Valid()
      reads this, spawned
    {
      Mirrors() && Inv(table)
    }

    constructor ()
      ensures Valid() && table == EMPTY
    {
      daemons, spawned, table := map[], [], EMPTY;
    }

    method StopDaemon(id: DaemonId) returns (found: bool)
      requires Valid()
      modifies this`daemons, this`table, spawned
      ensures Valid() && table == Stop(old(table), id)
      ensures found == (id in old(daemons))
    {
      StopKeepsInv(table, id);
      if id !in daemons {
        return false;
      }
      assert Owns(table, id, table.entries[id]);
      StopEntry(id);
      return true;
    }

    /** The running entry is marked, signalled and dropped from the map. */
    method StopEntry(id: DaemonId)
      requires Mirrors() && id in daemons && table.entries[id] in table.children
      modifies this`daemons, this`table, spawned
      ensures Mirrors() && table == Stop(old(table), id)
    {
      var entry := daemons[id];
      ghost var h := table.entries[id];
      entry.AskToStop();
      daemons := Without(daemons, id);
      table := Stop(table, id);
      assert spawned[h].AsChild() == table.children[h];
    }

    /** `pid` and `spawns` are the operating system's answer to the spawn. */
    method StartDaemon(id: DaemonId, pid: int, spawns: bool, now: int) returns (entry: DaemonEntry)
      requires Valid()
      modifies this, spawned
      ensures Valid() && table == Start(old(table), id, pid, spawns, now)
      ensures entry.pid == ChildPid(pid, spawns) && entry.startedAt == now
      ensures spawned == old(spawned) + [entry] && fresh(entry)
    {
      StartKeepsInv(table, id, pid, spawns, now);
      ghost var started := Start(table, id, pid, spawns, now);
      if id in daemons {
        var _ := StopDaemon(id);
      }
      entry := Insert(id, pid, spawns, now, started);
    }

    /** The second half of StartDaemon: the new child's entry goes in the map. */
    method Insert(id: DaemonId, pid: int, spawns: bool, now: int, ghost started: Table) returns (entry: DaemonEntry)
      requires Mirrors()
      requires started.entries == table.entries[id := table.spawns] && started.spawns == table.spawns + 1
      requires started.children == table.children[table.spawns := Child(id, ChildPid(pid, spawns), now, spawns, false, false)]
      modifies this
      ensures Mirrors() && table == started
      ensures entry.pid == ChildPid(pid, spawns) && entry.startedAt == now
      ensures spawned == old(spawned) + [entry] && fresh(entry)
    {
      entry := new DaemonEntry(id, ChildPid(pid, spawns), now, spawns, |spawned|);
      daemons := daemons[id := entry];
      spawned := spawned + [entry];
      table := started;
    }

    /** The 'exit' event of a child's process: released, then reported unless it was asked to stop. */
    method OnExit(entry: DaemonEntry) returns (report: bool)
      requires Valid() && Pending(entry) && entry.spawned
      modifies this`daemons, this`table
      ensures Valid() && table == Gone(old(table), entry.handle)
      ensures report == Reports(old(table), entry.handle)
    {
      Release(entry);
      report := !entry.stopping;
    }

    /** The 'error' event of a child that could not be spawned: released, never reported. */
    method OnSpawnError(entry: DaemonEntry)
      requires Valid() && Pending(entry) && !entry.spawned
      modifies this`daemons, this`table
      ensures Valid() && table == Gone(old(table), entry.handle)
      ensures !Reports(old(table), entry.handle)
    {
      Release(entry);
    }

    /** The child of this entry has not ended. */
    ghost predicate Pending(entry: DaemonEntry)
      reads this
    {
      entry.handle in table.children && entry.handle < |spawned| && spawned[entry.handle] == entry
    }

    method Release(entry: DaemonEntry)
      requires Valid() && Pending(entry)
      modifies this`daemons, this`table
      ensures Valid() && table == Gone(old(table), entry.handle)
    {
      GoneKeepsInv(table, entry.handle);
      ReleaseEntry(entry);
    }

    method ReleaseEntry(entry: DaemonEntry)
      requires Mirrors() && Pending(entry)
      modifies this`daemons, this`table
      ensures Mirrors() && table == Gone(old(table), entry.handle)
    {
      if entry.id in daemons && daemons[entry.id] == entry {
        daemons := Without(daemons, entry.id);
      }
      table := Gone(table, entry.handle);
    }

    method ListDaemons() returns (listed: map<DaemonId, Listed>)
      requires Valid()
      ensures listed == Listing(table)
      ensures forall id <- listed :: listed[id].running
    {
      listed := map id <- daemons :: Listed(daemons[id].pid, !daemons[id].killed);
      assert forall id <- daemons :: Owns(table, id, table.entries[id]) && daemons[id].AsChild() == table.children[table.entries[id]];
    }
  }

  // ---- What the tail shows

  /** How many of the lines are not blank. */
  function Spoken(lines: seq<string>): nat {
    if lines == [] then 0 else Spoken(lines[..|lines| - 1]) + if Blank(lines[|lines| - 1]) then 0 else 1
  }

  lemma {:induction false} KeptConcat(a: seq<string>, b: seq<string>)
    ensures Kept(a + b) == Kept(a) + Kept(b)
  {
    if a == [] {
      assert a + b == b;
    } else {
      assert (a + b)[1..] == a[1..] + b;
      KeptConcat(a[1..], b);
    }
  }

  lemma KeptOfOne(line: string)
    ensures Kept([line]) == if Blank(line) then [] else [line[..if |line| < 300 then |line| else 300]]
  {
    assert [line][1..] == [] && line[..|line|] == line;
  }

  /** Each line that is not blank is kept, its first 300 characters, behind those before it. */
  lemma {:induction false} SpokenLinesAreKept(lines: seq<string>, i: nat)
    requires i <= |lines|
    ensures |Kept(lines)| == Spoken(lines) && Spoken(lines[..i]) <= Spoken(lines)
    ensures i < |lines| && !Blank(lines[i]) ==>
              && Spoken(lines[..i]) < Spoken(lines)
              && Kept(lines)[Spoken(lines[..i])] == lines[i][..if |lines[i]| < 300 then |lines[i]| else 300]
    decreases |lines|
  {
    if lines == [] {
      return;
    }
    var n := |lines| - 1;
    var before := lines[..n];
    assert lines == before + [lines[n]];
    KeptConcat(before, [lines[n]]);
    KeptOfOne(lines[n]);
    SpokenLinesAreKept(before, if i < n then i else n);
    if i < n {
      assert before[..i] == lines[..i];
    } else if i == n {
      assert before[..n] == before;
    } else {
      assert lines[..i] == lines;
    }
  }

  lemma FromTheEnd(all: seq<string>, j: nat)
    requires j < |all|
    ensures var tail := LastOf(all, TAIL_LINES);
            && |tail| == (if |all| < 20 then |all| else 20)
            && (|all| - j <= 20 ==> |all| - j <= |tail| && tail[|tail| - (|all| - j)] == all[j])
  {
  }

  /** The tail after all lines of a fresh entry: the last twenty that are not blank, cut. */
  lemma TailIsTheLastTwenty(lines: seq<string>, i: nat)
    requires i < |lines| && !Blank(lines[i])
    ensures var tail, later := LastOf(Kept(lines), TAIL_LINES), Spoken(lines) - Spoken(lines[..i]);
            && |tail| == (if Spoken(lines) < 20 then Spoken(lines) else 20) && 0 < later <= Spoken(lines)
            && (later <= 20 ==> later <= |tail|
                                && tail[|tail| - later] == lines[i][..if |lines[i]| < 300 then |lines[i]| else 300])
  {
    SpokenLinesAreKept(lines, i);
    FromTheEnd(Kept(lines), Spoken(lines[..i]));
  }
}
