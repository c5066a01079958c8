/** What `Path::trim_start` computes, stated without its queue: the path is
    trimmed exactly when the prefix is no longer than the path and the
    prefix's last name equals the path's name at the same position; the
    segments dropped are that one plus every earlier position where the two
    names agree. Earlier mismatches do not stop the scan. */
module Trimming {
  import opened Base
  import opened Syntax
  import opened Paths
  import opened Walkers

  /** The number of positions below `k` where `names` and `prefix` agree. */
  function Matches(names: seq<Ident>, prefix: seq<Ident>, k: nat): (r: nat)
    requires k <= |names| && k <= |prefix|
    ensures r <= k
  {
    if k == 0 then 0
    else Matches(names, prefix, k - 1) + (if names[k - 1] == prefix[k - 1] then 1 else 0)
  }

  /** The positions the loop has compared before the last prefix name. */
  function Compared(visited: nat, prefixLength: nat): nat {
    if prefixLength == 0 then 0
    else if visited < prefixLength - 1 then visited
    else prefixLength - 1
  }

  /** Whether `trim_start` reports a trim, from the names alone. */
  predicate TrimsAt(names: seq<Ident>, prefix: seq<Ident>) {
    1 <= |prefix| <= |names| && names[|prefix| - 1] == prefix[|prefix| - 1]
  }

  /** How many leading segments a trim drops. */
  function Dropped(names: seq<Ident>, prefix: seq<Ident>): (r: nat)
    requires TrimsAt(names, prefix)
    ensures 1 <= r <= |prefix|
  {
    1 + Matches(names, prefix, |prefix| - 1)
  }

  lemma NamesSlice(s: seq<Segment>, k: nat)
    requires k <= |s|
    ensures Names(s[k..]) == Names(s)[k..]
  {
    assert forall i :: 0 <= i < |s| - k ==> Names(s[k..])[i] == s[k + i].name;
  }

  lemma NamesSnoc(done: seq<Segment>, segment: Segment)
    ensures Names(done + [segment]) == Names(done) + [segment.name]
  {
    NamesAppend(done, [segment]);
  }

  lemma NamesCons(rest: seq<Segment>)
    requires |rest| > 0
    ensures Names(rest) == [rest[0].name] + Names(rest[1..])
  {
  }

  lemma ConcatAssoc<T>(a: seq<T>, b: seq<T>, c: seq<T>)
    ensures a + b + c == a + (b + c)
  {
  }

  /** Replacing the first unvisited segment by one of the same name keeps the
      names of the whole path. */
  lemma NamesStep(done: seq<Segment>, segment: Segment, rest: seq<Segment>)
    requires |rest| > 0 && segment.name == rest[0].name
    ensures Names(done + [segment]) + Names(rest[1..]) == Names(done) + Names(rest)
    ensures Names(done + [segment] + rest[1..]) == Names(done) + Names(rest)
  {
    NamesSnoc(done, segment);
    NamesCons(rest);
    ConcatAssoc(Names(done), [segment.name], Names(rest[1..]));
    NamesAppend(done + [segment], rest[1..]);
  }

  // ---------------------------------------------------------------------
  // The scan with the per-segment trimming as a parameter

  /** The loop of `TrimScan` with the trimming of each segment's type
      arguments passed in as `trimArgs`. `TrimScan` is this loop with
      `ArgsTrimmer(prefix)` (`TrimScanIsScan`); stating the invariant
      here keeps the nested type walk out of its proof. */
  function Scan(trimArgs: Segment -> Result<Segment>, done: seq<Segment>, rest: seq<Segment>, queue: seq<Ident>, count: nat): Result<Trim>
    requires 1 <= count <= |done| + 1
    decreases |rest|
  {
    if |rest| == 0 then Ok(Trim(false, Path(done)))
    else
      var segment :- trimArgs(rest[0]);
      if |queue| == 0 then Scan(trimArgs, done + [segment], rest[1..], queue, count)
      else if segment.name == queue[0] && |queue| > 1 then Scan(trimArgs, done + [segment], rest[1..], queue[1..], count + 1)
      else if segment.name == queue[0] then Ok(Trim(true, Path((done + [segment] + rest[1..])[count..])))
      else Scan(trimArgs, done + [segment], rest[1..], queue[1..], count)
  }

  /** `trim_path_segment_in_generic_arguments` for a fixed prefix. */
  function ArgsTrimmer(prefix: Path): Segment -> Result<Segment> {
    segment => TrimSegmentArgs(prefix, segment)
  }

  /** The trimming of a segment's arguments never renames it. */
  ghost predicate KeepsNames(trimArgs: Segment -> Result<Segment>) {
    forall segment :: trimArgs(segment).Ok? ==> trimArgs(segment).value.name == segment.name
  }

  lemma {:induction false} TrimScanIsScan(prefix: Path, done: seq<Segment>, rest: seq<Segment>, queue: seq<Ident>, count: nat)
    requires 1 <= count <= |done| + 1
    ensures TrimScan(prefix, done, rest, queue, count) == Scan(ArgsTrimmer(prefix), done, rest, queue, count)
    decreases |rest|
  {
    if |rest| > 0 && TrimSegmentArgs(prefix, rest[0]).Ok? {
      var segment := TrimSegmentArgs(prefix, rest[0]).value;
      if |queue| == 0 {
        TrimScanIsScan(prefix, done + [segment], rest[1..], queue, count);
      } else if segment.name == queue[0] && |queue| > 1 {
        TrimScanIsScan(prefix, done + [segment], rest[1..], queue[1..], count + 1);
      } else if segment.name != queue[0] {
        TrimScanIsScan(prefix, done + [segment], rest[1..], queue[1..], count);
      }
    }
  }

  /** The loop invariant of `trim_start`: after `done`, the queue holds the
      prefix names not yet compared and `count` is one more than the matches
      among the compared positions before the last prefix name. `names` are
      the names of the whole path, `pre` those of the prefix. */
  predicate ScanState(done: seq<Segment>, rest: seq<Segment>, queue: seq<Ident>, count: nat,
                      names: seq<Ident>, pre: seq<Ident>)
  {
    && names == Names(done) + Names(rest)
    && 1 <= count <= |done| + 1
    && (|done| <= |pre| ==> queue == pre[|done|..])
    && (|done| > |pre| ==> queue == [])
    && count == 1 + Matches(names, pre, Compared(|done|, |pre|))
  }

  /** What the scan reports, in terms of the names alone. */
  predicate ScanClosed(t: Trim, done: seq<Segment>, names: seq<Ident>, pre: seq<Ident>) {
    && (t.trimmed <==> |done| < |pre| && TrimsAt(names, pre))
    && (t.trimmed ==> Names(t.path.segments) == names[Dropped(names, pre)..])
  }

  lemma {:induction false} ScanCloses(trimArgs: Segment -> Result<Segment>, done: seq<Segment>, rest: seq<Segment>, queue: seq<Ident>, count: nat,
                                      names: seq<Ident>, pre: seq<Ident>)
    requires KeepsNames(trimArgs)
    requires ScanState(done, rest, queue, count, names, pre)
    requires Scan(trimArgs, done, rest, queue, count).Ok?
    ensures ScanClosed(Scan(trimArgs, done, rest, queue, count).value, done, names, pre)
    decreases |rest|
  {
    if |rest| == 0 {
      assert |names| == |done|;
    } else {
      var segment := trimArgs(rest[0]).value;
      var done' := done + [segment];
      if |queue| == 0 {
        EmptyQueueStep(trimArgs, done, rest, queue, count, names, pre);
        ScanCloses(trimArgs, done', rest[1..], queue, count, names, pre);
      } else if segment.name == queue[0] && |queue| > 1 {
        MatchStep(trimArgs, done, rest, queue, count, names, pre);
        ScanCloses(trimArgs, done', rest[1..], queue[1..], count + 1, names, pre);
      } else if segment.name == queue[0] {
        ScanLast(trimArgs, done, rest, queue, count, names, pre);
      } else {
        MismatchStep(trimArgs, done, rest, queue, count, names, pre);
        ScanCloses(trimArgs, done', rest[1..], queue[1..], count, names, pre);
      }
    }
  }

  /** The queue's head is the prefix name at the current position. */
  lemma QueueHead(visited: nat, pre: seq<Ident>, queue: seq<Ident>)
    requires visited <= |pre| ==> queue == pre[visited..]
    requires visited > |pre| ==> queue == []
    requires |queue| > 0
    ensures visited + |queue| == |pre| && queue[0] == pre[visited]
    ensures queue[1..] == pre[visited + 1..]
  {
  }

  lemma NameAt(done: seq<Segment>, rest: seq<Segment>)
    requires |rest| > 0
    ensures (Names(done) + Names(rest))[|done|] == rest[0].name
  {
  }

  /** Once the prefix is used up, a segment is passed over and the
      invariant carries on with the same queue and count. */
  lemma EmptyQueueStep(trimArgs: Segment -> Result<Segment>, done: seq<Segment>, rest: seq<Segment>, queue: seq<Ident>, count: nat,
                       names: seq<Ident>, pre: seq<Ident>)
    requires KeepsNames(trimArgs)
    requires ScanState(done, rest, queue, count, names, pre)
    requires |rest| > 0 && |queue| == 0 && trimArgs(rest[0]).Ok?
    ensures var done' := done + [trimArgs(rest[0]).value];
      && ScanState(done', rest[1..], queue, count, names, pre)
      && (|done'| < |pre| <==> |done| < |pre|)
  {
    var segment := trimArgs(rest[0]).value;
    NamesStep(done, segment, rest);
    var done' := done + [segment];
    assert |done| >= |pre|;
    assert Compared(|done'|, |pre|) == Compared(|done|, |pre|);
  }

  /** A name that matches with more names queued is counted. */
  lemma MatchStep(trimArgs: Segment -> Result<Segment>, done: seq<Segment>, rest: seq<Segment>, queue: seq<Ident>, count: nat,
                  names: seq<Ident>, pre: seq<Ident>)
    requires KeepsNames(trimArgs)
    requires ScanState(done, rest, queue, count, names, pre)
    requires |rest| > 0 && |queue| > 1
    requires trimArgs(rest[0]).Ok? && trimArgs(rest[0]).value.name == queue[0]
    ensures var done' := done + [trimArgs(rest[0]).value];
      && ScanState(done', rest[1..], queue[1..], count + 1, names, pre)
      && |done'| < |pre| && |done| < |pre|
  {
    var n := |pre|;
    var segment := trimArgs(rest[0]).value;
    NamesStep(done, segment, rest);
    var done' := done + [segment];
    QueueHead(|done|, pre, queue);
    NameAt(done, rest);
    assert names[|done|] == segment.name;
    assert Compared(|done'|, n) == |done'| && Compared(|done|, n) == |done|;
    assert Matches(names, pre, |done'|) == Matches(names, pre, |done|) + 1;
  }

  /** A name that differs from the queue's head just consumes that name. */
  lemma MismatchStep(trimArgs: Segment -> Result<Segment>, done: seq<Segment>, rest: seq<Segment>, queue: seq<Ident>, count: nat,
                     names: seq<Ident>, pre: seq<Ident>)
    requires KeepsNames(trimArgs)
    requires ScanState(done, rest, queue, count, names, pre)
    requires |rest| > 0 && |queue| > 0
    requires trimArgs(rest[0]).Ok? && trimArgs(rest[0]).value.name != queue[0]
    ensures var done' := done + [trimArgs(rest[0]).value];
      && ScanState(done', rest[1..], queue[1..], count, names, pre)
      && |done| < |pre| && (|done'| < |pre| || !TrimsAt(names, pre))
  {
    var n := |pre|;
    var segment := trimArgs(rest[0]).value;
    NamesStep(done, segment, rest);
    var done' := done + [segment];
    QueueHead(|done|, pre, queue);
    NameAt(done, rest);
    assert names[|done|] == segment.name;
    assert Matches(names, pre, Compared(|done'|, n)) == Matches(names, pre, Compared(|done|, n));
  }

  /** A match of the last queued name drops `count` segments. */
  lemma ScanLast(trimArgs: Segment -> Result<Segment>, done: seq<Segment>, rest: seq<Segment>, queue: seq<Ident>, count: nat,
                 names: seq<Ident>, pre: seq<Ident>)
    requires KeepsNames(trimArgs)
    requires ScanState(done, rest, queue, count, names, pre)
    requires |rest| > 0 && |queue| == 1
    requires trimArgs(rest[0]).Ok? && trimArgs(rest[0]).value.name == queue[0]
    ensures Scan(trimArgs, done, rest, queue, count).Ok?
    ensures var t := Scan(trimArgs, done, rest, queue, count).value;
      && t.trimmed && |done| < |pre| && TrimsAt(names, pre)
      && Names(t.path.segments) == names[Dropped(names, pre)..]
  {
    var n := |pre|;
    var segment := trimArgs(rest[0]).value;
    NamesStep(done, segment, rest);
    assert |done| == n - 1 && queue[0] == pre[|done|];
    assert names[|done|] == rest[0].name == segment.name;
    var all := done + [segment] + rest[1..];
    assert Scan(trimArgs, done, rest, queue, count) == Ok(Trim(true, Path(all[count..])));
    NamesSlice(all, count);
  }

  /** `trim_start` trims exactly when `TrimsAt` holds of the names, and then
      drops `Dropped` leading segments; otherwise the names are unchanged. */
  lemma TrimStartCloses(p: Path, prefix: Path)
    requires TrimStart(p, prefix).Ok?
    ensures var t := TrimStart(p, prefix).value;
      && (t.trimmed <==> TrimsAt(Names(p.segments), Names(prefix.segments)))
      && (t.trimmed ==> Names(t.path.segments) == Names(p.segments)[Dropped(Names(p.segments), Names(prefix.segments))..])
      && (!t.trimmed ==> Names(t.path.segments) == Names(p.segments))
  {
    assert Names([]) + Names(p.segments) == Names(p.segments);
    TrimScanIsScan(prefix, [], p.segments, Names(prefix.segments), 1);
    assert KeepsNames(ArgsTrimmer(prefix));
    ScanCloses(ArgsTrimmer(prefix), [], p.segments, Names(prefix.segments), 1, Names(p.segments), Names(prefix.segments));
  }
}
