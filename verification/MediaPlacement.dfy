/** Where the media messages stand (backend/src/agent/tool-media.ts): after the last result of
    each run of results, the conversation otherwise untouched. */
module MediaPlacement {
  import opened Collections
  import opened ToolMedia
  import opened Transcript

  /** Position e is the last of a maximal run of tool results among the first n messages. */
  predicate EndsARun(ms: seq<Message>, n: nat, e: nat)
    requires n <= |ms|
  {
    e < n && ms[e].ToolResult? && (e + 1 < n ==> !ms[e + 1].ToolResult?)
  }

  /** All files of the unbroken row of tool results that ends at position e. */
  function FilesEndingAt(ms: seq<Message>, e: nat): seq<ToolFile>
    requires e < |ms|
  {
    if !ms[e].ToolResult? then [] else if e == 0 then ms[e].files else FilesEndingAt(ms, e - 1) + ms[e].files
  }

  predicate Ordered(runs: seq<Run>) {
    forall r, s | 0 <= r < s < |runs| :: runs[r].end < runs[s].end
  }

  lemma {:induction false} RunsAreOrdered(ms: seq<Message>, n: nat)
    requires n <= |ms|
    ensures Ordered(Runs(ms, n)) && forall r | 0 <= r < |Runs(ms, n)| :: Runs(ms, n)[r].end < n
  {
    if n > 0 {
      RunsAreOrdered(ms, n - 1);
    }
  }

  /** The run ends at the end of a maximal block of results and holds all files of the block. */
  predicate IsBlock(ms: seq<Message>, n: nat, run: Run)
    requires n <= |ms|
  {
    EndsARun(ms, n, run.end) && run.files == FilesEndingAt(ms, run.end)
  }

  lemma BlockStays(ms: seq<Message>, n: nat, run: Run)
    requires 0 < n <= |ms| && IsBlock(ms, n - 1, run) && (ms[n - 1].ToolResult? ==> run.end + 1 < n - 1)
    ensures IsBlock(ms, n, run)
  {
  }

  /** The last message of a row of results is the end of the last run. */
  lemma LastRunEnds(ms: seq<Message>, n: nat)
    requires 0 < n <= |ms| && ms[n - 1].ToolResult?
    ensures Runs(ms, n) != [] && Runs(ms, n)[|Runs(ms, n)| - 1].end == n - 1
  {
  }

  lemma MergedIsBlock(ms: seq<Message>, i: nat, last: Run)
    requires i < |ms| && ms[i].ToolResult? && IsBlock(ms, i, last) && last.end + 1 == i
    ensures IsBlock(ms, i + 1, Run(i, last.files + ms[i].files))
  {
  }

  lemma NewIsBlock(ms: seq<Message>, i: nat)
    requires i < |ms| && ms[i].ToolResult? && (i > 0 ==> !ms[i - 1].ToolResult?)
    ensures IsBlock(ms, i + 1, Run(i, ms[i].files))
  {
    assert i > 0 ==> [] + ms[i].files == ms[i].files;
  }

  /** How run r among the first n messages came to be. */
  datatype Origin = Kept(run: Run) | Merged(last: Run) | Opened

  lemma OriginOf(ms: seq<Message>, n: nat, r: nat) returns (o: Origin)
    requires 0 < n <= |ms| && r < |Runs(ms, n)|
    ensures o.Kept? ==> r < |Runs(ms, n - 1)| && o.run == Runs(ms, n - 1)[r] == Runs(ms, n)[r]
                        && (ms[n - 1].ToolResult? ==> o.run.end + 1 < n - 1)
    ensures !o.Kept? ==> ms[n - 1].ToolResult?
    ensures o.Merged? ==> r < |Runs(ms, n - 1)| && o.last == Runs(ms, n - 1)[r] && o.last.end + 1 == n - 1
                          && Runs(ms, n)[r] == Run(n - 1, o.last.files + ms[n - 1].files)
    ensures o.Opened? ==> Runs(ms, n)[r] == Run(n - 1, ms[n - 1].files)
                          && (n > 1 ==> !ms[n - 2].ToolResult?)
  {
    var before := Runs(ms, n - 1);
    var last := |before| - 1;
    RunsAreOrdered(ms, n - 1);
    if !ms[n - 1].ToolResult? || r < last || (r == last && before[last].end + 1 < n - 1) {
      o := Kept(before[r]);
    } else if r == last {
      o := Merged(before[last]);
    } else {
      o := Opened;
      if n > 1 && ms[n - 2].ToolResult? {
        LastRunEnds(ms, n - 1);
      }
    }
  }

  lemma {:induction false} RunsAreBlocks(ms: seq<Message>, n: nat, r: nat)
    requires n <= |ms| && r < |Runs(ms, n)|
    ensures IsBlock(ms, n, Runs(ms, n)[r])
  {
    if n > 0 {
      var o := OriginOf(ms, n, r);
      match o
      case Kept(run) =>
        RunsAreBlocks(ms, n - 1, r);
        BlockStays(ms, n, run);
      case Merged(last) =>
        RunsAreBlocks(ms, n - 1, r);
        MergedIsBlock(ms, n - 1, last);
      case Opened =>
        NewIsBlock(ms, n - 1);
    }
  }

  /** Every maximal block of results is one of the runs. */
  lemma {:induction false} BlocksAreRuns(ms: seq<Message>, n: nat, e: nat) returns (r: nat)
    requires n <= |ms| && EndsARun(ms, n, e)
    ensures r < |Runs(ms, n)| && Runs(ms, n)[r].end == e
  {
    if e == n - 1 {
      r := |Runs(ms, n)| - 1;
    } else {
      r := BlocksAreRuns(ms, n - 1, e);
      if ms[n - 1].ToolResult? {
        assert e + 1 != n - 1;
      }
    }
  }

  /** Position of message j among the woven ones. */
  function Place(ins: map<nat, seq<Part>>, i: nat, j: nat): nat
    requires i <= j
    decreases j - i
  {
    if i == j then 0 else (if i in ins then 2 else 1) + Place(ins, i + 1, j)
  }

  /** Reading the places of the original messages gives the original list back; at every other
      place stands the content inserted after the message just before it. */
  lemma {:induction false} WeaveKeepsTheList(ms: seq<Message>, ins: map<nat, seq<Part>>, i: nat, j: nat)
    requires i <= j < |ms|
    ensures var out, p := Weave(ms, ins, i), Place(ins, i, j);
            && p < |out| && out[p] == ms[j]
            && (j in ins ==> p + 1 < |out| && out[p + 1] == Media(ins[j]))
    decreases j - i
  {
    if i < j {
      WeaveKeepsTheList(ms, ins, i + 1, j);
    }
  }

  lemma {:induction false} WeaveAddsNothingElse(ms: seq<Message>, ins: map<nat, seq<Part>>, i: nat, p: nat)
      returns (j: nat)
    requires i <= |ms| && p < |Weave(ms, ins, i)|
    ensures i <= j < |ms| && (p == Place(ins, i, j) || (p == Place(ins, i, j) + 1 && j in ins))
    decreases |ms| - i
  {
    var here := if i in ins then 2 else 1;
    if p < here {
      j := i;
    } else {
      j := WeaveAddsNothingElse(ms, ins, i + 1, p - here);
    }
  }

  lemma {:induction false} PlacesAreOrdered(ins: map<nat, seq<Part>>, i: nat, j: nat, k: nat)
    requires i <= j < k
    ensures Place(ins, i, j) + (if j in ins then 1 else 0) < Place(ins, i, k)
    decreases j - i
  {
    if i < j {
      PlacesAreOrdered(ins, i + 1, j, k);
    }
  }

  /** After message e stands the content of the run that ends there, when it has any to show,
      and nothing otherwise. */
  lemma {:induction false} RunsAreFollowed(runs: seq<Run>, sees: bool, left: int, partsFor: ToolFile -> seq<Part>,
                                           acc: map<nat, seq<Part>>, r: nat)
    requires Ordered(runs) && r < |runs| && runs[r].end !in acc
    ensures var ins, parts := Insertions(runs, sees, left, partsFor, acc), PartsOf(Allotted(runs, sees, left)[r], partsFor);
            && (runs[r].end in ins <==> parts != [])
            && (parts != [] ==> ins[runs[r].end] == parts)
  {
    var n := |runs| - 1;
    var next := Remaining(runs[n].files, sees, left);
    var parts := PartsOf(Shown(runs[n].files, sees, left), partsFor);
    var acc' := Put(parts, runs[n].end, acc);
    AllottedLast(runs, sees, left, r);
    if r < n {
      RunsAreFollowed(runs[..n], sees, next, partsFor, acc', r);
    } else {
      OthersAreKept(runs[..n], sees, next, partsFor, acc', runs[n].end);
    }
  }

  lemma AllottedLast(runs: seq<Run>, sees: bool, left: int, r: nat)
    requires r < |runs|
    ensures var n := |runs| - 1;
            Allotted(runs, sees, left)[r]
            == if r < n then Allotted(runs[..n], sees, Remaining(runs[n].files, sees, left))[r]
               else Shown(runs[n].files, sees, left)
  {
  }

  lemma {:induction false} OthersAreKept(runs: seq<Run>, sees: bool, left: int, partsFor: ToolFile -> seq<Part>,
                                         acc: map<nat, seq<Part>>, e: nat)
    requires forall r | 0 <= r < |runs| :: runs[r].end != e
    ensures var ins := Insertions(runs, sees, left, partsFor, acc);
            (e in ins <==> e in acc) && (e in acc ==> ins[e] == acc[e])
  {
    if runs != [] {
      var n := |runs| - 1;
      OthersAreKept(runs[..n], sees, Remaining(runs[n].files, sees, left), partsFor,
                    Put(PartsOf(Shown(runs[n].files, sees, left), partsFor), runs[n].end, acc), e);
    }
  }

  lemma {:induction false} WithFilesFrom(runs: seq<Run>, r: nat) returns (k: nat)
    requires r < |WithFiles(runs)|
    ensures k < |runs| && WithFiles(runs)[r] == runs[k] && runs[k].files != []
  {
    var n := |runs| - 1;
    if r < |WithFiles(runs[..n])| {
      k := WithFilesFrom(runs[..n], r);
    } else {
      k := n;
    }
  }

  lemma {:induction false} WithFilesHas(runs: seq<Run>, k: nat) returns (r: nat)
    requires k < |runs| && runs[k].files != []
    ensures r < |WithFiles(runs)| && WithFiles(runs)[r] == runs[k]
  {
    var n := |runs| - 1;
    if k < n {
      r := WithFilesHas(runs[..n], k);
    } else {
      r := |WithFiles(runs[..n])|;
    }
  }

  lemma {:induction false} WithFilesKeepsOrder(runs: seq<Run>)
    requires Ordered(runs)
    ensures Ordered(WithFiles(runs))
  {
    if runs != [] {
      var n := |runs| - 1;
      var kept := WithFiles(runs[..n]);
      WithFilesKeepsOrder(runs[..n]);
      forall r | 0 <= r < |kept|
        ensures kept[r].end < runs[n].end
      {
        var k := WithFilesFrom(runs[..n], r);
        assert kept[r] == runs[k];
      }
    }
  }

  /** Content stands only after the last result of a maximal block, one that returned files. */
  lemma InsertionsFollowTheBlocks(ms: seq<Message>, sees: bool, maxImages: int, partsFor: ToolFile -> seq<Part>, e: nat)
    requires e in InsertionsOf(ms, sees, maxImages, partsFor)
    ensures EndsARun(ms, |ms|, e) && FilesEndingAt(ms, e) != []
  {
    var all := Runs(ms, |ms|);
    var runs := WithFiles(all);
    if r :| 0 <= r < |runs| && runs[r].end == e {
      var k := WithFilesFrom(all, r);
      RunsAreBlocks(ms, |ms|, k);
    } else {
      OthersAreKept(runs, sees, maxImages, partsFor, map[], e);
    }
  }

  /** Every maximal block of tool results that returned files is one of the runs served, and its
      last result is followed by what that run may show, or by nothing when that is nothing. */
  lemma BlocksAreFollowed(ms: seq<Message>, sees: bool, maxImages: int, partsFor: ToolFile -> seq<Part>, e: nat)
      returns (r: nat)
    requires EndsARun(ms, |ms|, e) && FilesEndingAt(ms, e) != []
    ensures var runs, ins := WithFiles(Runs(ms, |ms|)), InsertionsOf(ms, sees, maxImages, partsFor);
            && r < |runs| && runs[r] == Run(e, FilesEndingAt(ms, e))
            && var parts := PartsOf(Allotted(runs, sees, maxImages)[r], partsFor);
               (e in ins <==> parts != []) && (parts != [] ==> ins[e] == parts)
  {
    var all := Runs(ms, |ms|);
    var k := BlocksAreRuns(ms, |ms|, e);
    RunsAreBlocks(ms, |ms|, k);
    r := WithFilesHas(all, k);
    RunsAreOrdered(ms, |ms|);
    WithFilesKeepsOrder(all);
    RunsAreFollowed(WithFiles(all), sees, maxImages, partsFor, map[], r);
  }

  /** The protocol survives the insertion. */
  lemma MediaKeepsTheProtocol(ms: seq<Message>, sees: bool, maxImages: int, partsFor: ToolFile -> seq<Part>)
    requires Paired(ms)
    ensures Paired(Weave(ms, InsertionsOf(ms, sees, maxImages, partsFor), 0))
  {
    var ins := InsertionsOf(ms, sees, maxImages, partsFor);
    forall e | e in ins
      ensures EndsARun(ms, |ms|, e)
    {
      InsertionsFollowTheBlocks(ms, sees, maxImages, partsFor, e);
    }
    assert ms[0..] == ms;
    WeaveKeepsThePairs(ms, ins, 0);
  }

  lemma {:induction false} WeaveKeepsThePairs(ms: seq<Message>, ins: map<nat, seq<Part>>, i: nat)
    requires i <= |ms| && Paired(ms[i..])
    requires forall e | e in ins :: EndsARun(ms, |ms|, e)
    ensures Paired(Weave(ms, ins, i))
    decreases |ms| - i
  {
    if i < |ms| {
      var k := if ms[i].AI? then i + |ms[i].calls| else i;
      GroupIsPaired(ms, i, k);
      var group := ms[i..k + 1];
      assert ms[i..][k + 1 - i..] == ms[k + 1..];
      WeaveKeepsThePairs(ms, ins, k + 1);
      UntouchedWithinAGroup(ms, ins, i, k);
      var rest := After(ins, k) + Weave(ms, ins, k + 1);
      assert Paired(rest) by {
        if k in ins {
          assert rest[1..] == Weave(ms, ins, k + 1);
        } else {
          assert rest == Weave(ms, ins, k + 1);
        }
      }
      PairedConcat(group, rest);
    }
  }

  predicate IsResult(ms: seq<Message>, j: nat) {
    j < |ms| && ms[j].ToolResult?
  }

  /** Only tool results from after i up to k. */
  predicate ResultsBetween(ms: seq<Message>, i: nat, k: nat) {
    forall j: nat | i < j <= k :: IsResult(ms, j)
  }

  lemma GroupIsPaired(ms: seq<Message>, i: nat, k: nat)
    requires i < |ms| && Paired(ms[i..]) && k == if ms[i].AI? then i + |ms[i].calls| else i
    ensures k < |ms| && Paired(ms[i..k + 1]) && ResultsBetween(ms, i, k)
  {
    assert ms[i..][0] == ms[i];
    var group := ms[i..k + 1];
    assert group[|group|..] == [];
    if ms[i].AI? {
      forall c | 0 <= c < |ms[i].calls|
        ensures Answers(group[1 + c], ms[i].calls[c])
      {
        assert Answers(ms[i..][1 + c], ms[i].calls[c]);
      }
      forall j: nat | i < j <= k
        ensures IsResult(ms, j)
      {
        assert Answers(ms[i..][1 + (j - i - 1)], ms[i].calls[j - i - 1]);
      }
    }
  }

  /** Nothing is inserted between the calls of a message and their last result. */
  lemma {:induction false} UntouchedWithinAGroup(ms: seq<Message>, ins: map<nat, seq<Part>>, i: nat, k: nat)
    requires i <= k < |ms| && ResultsBetween(ms, i, k)
    requires forall e | e in ins :: EndsARun(ms, |ms|, e)
    ensures Weave(ms, ins, i) == ms[i..k + 1] + (After(ins, k) + Weave(ms, ins, k + 1))
    decreases k - i
  {
    if i == k {
      assert ms[i..k + 1] == [ms[i]];
      Assoc([ms[i]], After(ins, i), Weave(ms, ins, i + 1));
    } else {
      assert IsResult(ms, i + 1);
      UntouchedWithinAGroup(ms, ins, i + 1, k);
      NothingAfter(ms, ins, i);
      SliceThen(ms, i, k, After(ins, k) + Weave(ms, ins, k + 1));
    }
  }

  lemma SliceThen(ms: seq<Message>, i: nat, k: nat, rest: seq<Message>)
    requires i < k < |ms|
    ensures [ms[i]] + (ms[i + 1..k + 1] + rest) == ms[i..k + 1] + rest
  {
  }

  lemma NothingAfter(ms: seq<Message>, ins: map<nat, seq<Part>>, i: nat)
    requires i < |ms| && i !in ins
    ensures Weave(ms, ins, i) == [ms[i]] + Weave(ms, ins, i + 1)
  {
    assert [ms[i]] + After(ins, i) == [ms[i]];
  }
}
