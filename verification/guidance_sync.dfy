/**
 The routing-guidance rewriter: finds the section by its heading line, replaces or inserts
 the generated block, and leaves the rest of the document alone.
 */
module GuidanceSync {
  import opened Prelude

  const HEADING: string := "## CLI-first capability routing\n"
  const SEPARATOR: string := "\n## "

  predicate OccursAt(t: string, p: string, i: int) {
    0 <= i && i + |p| <= |t| && t[i..i + |p|] == p
  }

  /** `String.prototype.indexOf`: the first occurrence at or after `from`, or -1. */
  function IndexOf(t: string, p: string, from: nat): (r: int)
    ensures r == -1 || (r >= from && OccursAt(t, p, r))
    ensures forall i :: from <= i && OccursAt(t, p, i) ==> r != -1 && r <= i
    decreases |t| - from
  {
    if from + |p| > |t| then -1
    else if t[from..from + |p|] == p then from
    else if from == |t| then -1
    else IndexOf(t, p, from + 1)
  }

  datatype SyncError = MissingBoundary | DuplicateSection

  /** One document's rewrite, with the two errors that stop the whole run. */
  function Sync(text: string, block: string): Result<string, SyncError> {
    var start := IndexOf(text, HEADING, 0);
    if start < 0 then
      var first := IndexOf(text, SEPARATOR, 0);
      if first < 0 then Err(MissingBoundary)
      else Ok(text[..first] + "\n" + block + "\n" + text[first..])
    else if IndexOf(text, HEADING, start + |HEADING|) >= 0 then Err(DuplicateSection)
    else
      var next := IndexOf(text, SEPARATOR, start + |HEADING|);
      Ok(text[..start] + block + "\n" + if next < 0 then "" else text[next..])
  }

  // ---------------------------------------------------------------- occurrences

  lemma HeadingShape()
    ensures |HEADING| == 32 && HEADING[0] == '#' && HEADING[31] == '\n'
    ensures forall i :: 0 <= i < 31 ==> HEADING[i] != '\n'
  {
  }

  lemma OccursChars(t: string, p: string, i: int, k: int)
    ensures OccursAt(t, p, i) && 0 <= k < |p| ==> 0 <= i + k < |t| && t[i + k] == p[k]
  {
    if OccursAt(t, p, i) && 0 <= k < |p| {
      assert t[i..i + |p|][k] == t[i + k];
    }
  }

  /** An occurrence depends only on the characters it covers. */
  lemma OccursShift(t: string, u: string, p: string, i: int, d: int)
    requires OccursAt(t, p, i) && 0 <= i + d && i + d + |p| <= |u|
    requires forall k :: i <= k < i + |p| ==> u[k + d] == t[k]
    ensures OccursAt(u, p, i + d)
  {
    forall k | 0 <= k < |p| ensures u[i + d..i + d + |p|][k] == p[k] {
      OccursChars(t, p, i, k);
      assert u[(i + k) + d] == t[i + k];
    }
    assert u[i + d..i + d + |p|] == p;
  }

  /** The block starts with the heading, repeats it nowhere and opens no other section. */
  ghost predicate GoodBlock(block: string) {
    && HEADING <= block
    && IndexOf(block + "\n", HEADING, |HEADING|) == -1
    && IndexOf(block, SEPARATOR, |HEADING|) == -1
  }

  /** The heading has no occurrence that starts inside `pre` when `pre` is followed by it. */
  ghost predicate NoEarlyHeading(pre: string) {
    forall i :: 0 <= i < |pre| ==> !OccursAt(pre + HEADING, HEADING, i)
  }

  /** The remainder after the block: the end of the document or the next section. */
  ghost predicate CleanRest(rest: string) {
    && (rest == "" || SEPARATOR <= rest)
    && IndexOf(rest, HEADING, 0) == -1
  }

  function Spliced(pre: string, block: string, rest: string): string {
    pre + block + "\n" + rest
  }

  lemma SplicedStart(pre: string, block: string, rest: string)
    requires NoEarlyHeading(pre) && HEADING <= block
    ensures IndexOf(Spliced(pre, block, rest), HEADING, 0) == |pre|
  {
    var t := Spliced(pre, block, rest);
    HeadingShape();
    assert OccursAt(t, HEADING, |pre|);
    var r := IndexOf(t, HEADING, 0);
    if r < |pre| {
      OccursShift(t, pre + HEADING, HEADING, r, 0);
      assert false;
    }
  }

  lemma SplicedChars(pre: string, block: string, rest: string)
    ensures var t, end := Spliced(pre, block, rest), |pre| + |block| + 1;
            && |t| == end + |rest| && t[end - 1] == '\n'
            && (forall k :: 0 <= k < |block| ==> t[|pre| + k] == block[k])
            && (forall k :: end <= k < |t| ==> t[k] == rest[k - end])
  {
  }

  /** An occurrence of the heading at or after the block's start lies inside the block. */
  lemma HeadingInside(pre: string, block: string, rest: string, i: int)
    requires CleanRest(rest)
    requires OccursAt(Spliced(pre, block, rest), HEADING, i) && i >= |pre|
    ensures OccursAt(block + "\n", HEADING, i - |pre|)
  {
    var t, end := Spliced(pre, block, rest), |pre| + |block| + 1;
    HeadingShape();
    SplicedChars(pre, block, rest);
    if i >= end {
      OccursShift(t, rest, HEADING, i, -end);
      assert false;
    } else if i + |HEADING| > end {
      OccursChars(t, HEADING, i, end - 1 - i);
      assert false;
    } else {
      OccursShift(t, block + "\n", HEADING, i, -|pre|);
    }
  }

  lemma BlockInside(pre: string, block: string, rest: string, i: int)
    requires OccursAt(block + "\n", HEADING, i)
    ensures OccursAt(Spliced(pre, block, rest), HEADING, |pre| + i)
  {
    SplicedChars(pre, block, rest);
    OccursShift(block + "\n", Spliced(pre, block, rest), HEADING, i, |pre|);
  }

  /** A heading after the first one in a spliced document is one in the block. */
  lemma SplicedSecond(pre: string, block: string, rest: string)
    requires HEADING <= block && CleanRest(rest)
    ensures IndexOf(Spliced(pre, block, rest), HEADING, |pre| + |HEADING|) >= 0 <==>
              IndexOf(block + "\n", HEADING, |HEADING|) >= 0
  {
    var t, b := Spliced(pre, block, rest), block + "\n";
    var r := IndexOf(t, HEADING, |pre| + |HEADING|);
    var s := IndexOf(b, HEADING, |HEADING|);
    if s >= 0 {
      BlockInside(pre, block, rest, s);
    }
    if r >= 0 {
      HeadingInside(pre, block, rest, r);
    }
  }

  /** An occurrence of the separator after the block's start is in the block or after it. */
  lemma SeparatorPlace(pre: string, block: string, rest: string, i: int)
    requires CleanRest(rest)
    requires OccursAt(Spliced(pre, block, rest), SEPARATOR, i) && i >= |pre|
    ensures i > |pre| + |block| || OccursAt(block, SEPARATOR, i - |pre|)
  {
    var t, end := Spliced(pre, block, rest), |pre| + |block| + 1;
    SplicedChars(pre, block, rest);
    if i < end {
      if i + |SEPARATOR| <= end - 1 {
        OccursShift(t, block, SEPARATOR, i, -|pre|);
      } else if i == end - 1 {
        OccursChars(t, SEPARATOR, i, 1);
        assert false;
      } else {
        OccursChars(t, SEPARATOR, i, end - 1 - i);
        assert false;
      }
    }
  }

  /** Where the section ends in a spliced document when the block opens no other section. */
  lemma SplicedNext(pre: string, block: string, rest: string)
    requires HEADING <= block && CleanRest(rest)
    requires IndexOf(block, SEPARATOR, |HEADING|) == -1
    ensures IndexOf(Spliced(pre, block, rest), SEPARATOR, |pre| + |HEADING|)
         == if rest == "" then -1 else |pre| + |block| + 1
  {
    var t, end := Spliced(pre, block, rest), |pre| + |block| + 1;
    var r := IndexOf(t, SEPARATOR, |pre| + |HEADING|);
    SplicedChars(pre, block, rest);
    if rest != "" {
      assert OccursAt(rest, SEPARATOR, 0);
      OccursShift(rest, t, SEPARATOR, 0, end);
    }
    if 0 <= r {
      SeparatorPlace(pre, block, rest, r);
    }
  }

  /** A section inside the block is found before the block ends. */
  lemma SplicedInner(pre: string, block: string, rest: string)
    requires HEADING <= block && IndexOf(block, SEPARATOR, |HEADING|) >= 0
    ensures |pre| + |HEADING| <= IndexOf(Spliced(pre, block, rest), SEPARATOR, |pre| + |HEADING|)
         < |pre| + |block|
  {
    var s := IndexOf(block, SEPARATOR, |HEADING|);
    OccursShift(block, Spliced(pre, block, rest), SEPARATOR, s, |pre|);
  }

  /**
   Every accepted document has a prefix and a remainder, both its own text, that the rewriter
   puts around whatever block it is given.
   */
  lemma SyncSplices(text: string, block: string) returns (pre: string, rest: string)
    requires Sync(text, block).Ok?
    ensures forall b :: Sync(text, b) == Ok(Spliced(pre, b, rest))
    ensures NoEarlyHeading(pre) && CleanRest(rest)
    ensures |pre| > 0 ==> pre <= text
    ensures |rest| <= |text| && rest == text[|text| - |rest|..]
  {
    HeadingShape();
    if IndexOf(text, HEADING, 0) < 0 {
      pre, rest := InsertSplices(text, block);
    } else {
      pre, rest := ReplaceSplices(text, block);
    }
  }

  lemma InsertSplices(text: string, block: string) returns (pre: string, rest: string)
    requires Sync(text, block).Ok? && IndexOf(text, HEADING, 0) < 0
    ensures forall b :: Sync(text, b) == Ok(Spliced(pre, b, rest))
    ensures NoEarlyHeading(pre) && CleanRest(rest) && pre <= text && |rest| <= |text|
    ensures rest == text[|text| - |rest|..]
  {
    var first := IndexOf(text, SEPARATOR, 0);
    pre, rest := text[..first] + "\n", text[first..];
    OccursChars(text, SEPARATOR, first, 0);
    assert pre == text[..first + 1];
    InsertedPrefix(text, first);
    NoHeadingInRest(text, first, 0);
    assert OccursAt(rest, SEPARATOR, 0) by {
      OccursShift(text, rest, SEPARATOR, first, -first);
    }
  }

  lemma ReplaceSplices(text: string, block: string) returns (pre: string, rest: string)
    requires Sync(text, block).Ok? && IndexOf(text, HEADING, 0) >= 0
    ensures forall b :: Sync(text, b) == Ok(Spliced(pre, b, rest))
    ensures NoEarlyHeading(pre) && CleanRest(rest) && pre <= text && |rest| <= |text|
    ensures rest == text[|text| - |rest|..]
  {
    var start := IndexOf(text, HEADING, 0);
    var next := IndexOf(text, SEPARATOR, start + |HEADING|);
    pre, rest := text[..start], if next < 0 then "" else text[next..];
    FoundPrefix(text, start);
    if next >= 0 {
      NoHeadingInRest(text, next, start + |HEADING|);
      OccursShift(text, rest, SEPARATOR, next, -next);
    }
  }

  lemma NoHeadingInRest(text: string, cut: nat, from: nat)
    requires from <= cut <= |text| && IndexOf(text, HEADING, from) == -1
    ensures IndexOf(text[cut..], HEADING, 0) == -1
  {
    var r := IndexOf(text[cut..], HEADING, 0);
    if r >= 0 {
      OccursShift(text[cut..], text, HEADING, r, cut);
      assert false;
    }
  }

  lemma InsertedPrefix(text: string, first: nat)
    requires IndexOf(text, HEADING, 0) == -1 && OccursAt(text, SEPARATOR, first)
    ensures NoEarlyHeading(text[..first + 1])
  {
    HeadingShape();
    var pre := text[..first + 1];
    OccursChars(text, SEPARATOR, first, 0);
    forall i | 0 <= i < |pre| ensures !OccursAt(pre + HEADING, HEADING, i) {
      if OccursAt(pre + HEADING, HEADING, i) {
        if i + |HEADING| <= |pre| {
          OccursShift(pre + HEADING, text, HEADING, i, 0);
        } else {
          OccursChars(pre + HEADING, HEADING, i, first - i);
        }
        assert false;
      }
    }
  }

  lemma OccursInPrefix(text: string, n: nat, p: string, i: int)
    requires n <= |text| && OccursAt(text[..n], p, i)
    ensures OccursAt(text, p, i)
  {
    assert text[..n][i..i + |p|] == text[i..i + |p|];
  }

  lemma FoundPrefix(text: string, start: nat)
    requires IndexOf(text, HEADING, 0) == start
    ensures NoEarlyHeading(text[..start])
  {
    var n := start + |HEADING|;
    assert text[..start] + HEADING == text[..n];
    forall i | 0 <= i < start ensures !OccursAt(text[..n], HEADING, i) {
      if OccursAt(text[..n], HEADING, i) {
        OccursInPrefix(text, n, HEADING, i);
        assert false;
      }
    }
  }

  // ---------------------------------------------------------------- which documents are accepted

  predicate Contains(t: string, p: string) {
    exists i | 0 <= i <= |t| :: OccursAt(t, p, i)
  }

  predicate OccursTwice(t: string, p: string) {
    exists i, j | 0 <= i < j <= |t| :: OccursAt(t, p, i) && OccursAt(t, p, j)
  }

  lemma FoundIff(t: string, p: string)
    ensures IndexOf(t, p, 0) >= 0 <==> Contains(t, p)
  {
    if IndexOf(t, p, 0) >= 0 {
      assert OccursAt(t, p, IndexOf(t, p, 0));
    }
  }

  /** Two headings never share a character. */
  lemma HeadingsApart(t: string, i: int, j: int)
    requires OccursAt(t, HEADING, i) && OccursAt(t, HEADING, j) && i < j
    ensures i + |HEADING| <= j
  {
    HeadingShape();
    if j < i + |HEADING| {
      OccursChars(t, HEADING, j, i + |HEADING| - 1 - j);
      OccursChars(t, HEADING, i, |HEADING| - 1);
      assert false;
    }
  }

  lemma SecondIff(t: string)
    requires IndexOf(t, HEADING, 0) >= 0
    ensures IndexOf(t, HEADING, IndexOf(t, HEADING, 0) + |HEADING|) >= 0 <==> OccursTwice(t, HEADING)
  {
    var start := IndexOf(t, HEADING, 0);
    var second := IndexOf(t, HEADING, start + |HEADING|);
    if second >= 0 {
      assert OccursAt(t, HEADING, start) && OccursAt(t, HEADING, second);
    }
    if OccursTwice(t, HEADING) {
      var i, j :| 0 <= i < j <= |t| && OccursAt(t, HEADING, i) && OccursAt(t, HEADING, j);
      assert start <= i < j;
      HeadingsApart(t, start, j);
    }
  }

  /**
   A document is refused exactly when it holds the routing heading twice, or has neither that heading nor
   any other section; each has its own error.
   */
  lemma SyncVerdict(text: string, block: string)
    ensures var routing := "## CLI-first capability routing\n";
            && (Sync(text, block) == Err(DuplicateSection) <==> OccursTwice(text, routing))
            && (Sync(text, block) == Err(MissingBoundary) <==> !Contains(text, routing) && !Contains(text, "\n## "))
  {
    FoundIff(text, HEADING);
    FoundIff(text, SEPARATOR);
    if IndexOf(text, HEADING, 0) >= 0 {
      SecondIff(text);
    }
  }

  // ---------------------------------------------------------------- idempotence

  lemma ResyncGood(pre: string, block: string, rest: string, newer: string)
    requires NoEarlyHeading(pre) && CleanRest(rest) && GoodBlock(block)
    ensures Sync(Spliced(pre, block, rest), newer) == Ok(Spliced(pre, newer, rest))
  {
    var t := Spliced(pre, block, rest);
    SplicedStart(pre, block, rest);
    SplicedSecond(pre, block, rest);
    SplicedNext(pre, block, rest);
    assert t[..|pre|] == pre;
    assert rest != "" ==> t[|pre| + |block| + 1..] == rest;
  }

  lemma ResyncBad(pre: string, block: string, rest: string)
    requires NoEarlyHeading(pre) && CleanRest(rest) && HEADING <= block && !GoodBlock(block)
    ensures Sync(Spliced(pre, block, rest), block) != Ok(Spliced(pre, block, rest))
  {
    var t := Spliced(pre, block, rest);
    SplicedStart(pre, block, rest);
    SplicedSecond(pre, block, rest);
    if IndexOf(block + "\n", HEADING, |HEADING|) < 0 {
      SplicedInner(pre, block, rest);
      var next := IndexOf(t, SEPARATOR, |pre| + |HEADING|);
      assert |t[..|pre|] + block + "\n" + t[next..]| > |t|;
    }
  }

  /**
   Running the rewriter on its own output changes nothing exactly when the block repeats
   its heading nowhere and opens no other section; this holds for every accepted document.
   */
  lemma SyncIsIdempotent(text: string, block: string)
    requires HEADING <= block && Sync(text, block).Ok?
    ensures Sync(Sync(text, block).value, block) == Sync(text, block) <==> GoodBlock(block)
  {
    var pre, rest := SyncSplices(text, block);
    if GoodBlock(block) {
      ResyncGood(pre, block, rest, block);
    } else {
      ResyncBad(pre, block, rest);
    }
  }

  ghost predicate OnlyHeadingAt(t: string, at: int) {
    forall i :: OccursAt(t, HEADING, i) <==> i == at
  }

  /** The output holds exactly one copy of the heading. */
  lemma ExactlyOneHeading(text: string, block: string)
    requires GoodBlock(block) && Sync(text, block).Ok?
    ensures exists at :: OnlyHeadingAt(Sync(text, block).value, at)
  {
    var pre, rest := SyncSplices(text, block);
    var t := Spliced(pre, block, rest);
    HeadingShape();
    SplicedStart(pre, block, rest);
    SplicedSecond(pre, block, rest);
    assert block[31] == '\n';
    forall i ensures OccursAt(t, HEADING, i) <==> i == |pre| {
      if OccursAt(t, HEADING, i) && |pre| < i {
        HeadingInside(pre, block, rest, i);
        if i < |pre| + |HEADING| {
          OccursChars(block + "\n", HEADING, i - |pre|, |pre| + |HEADING| - 1 - i);
        }
        assert false;
      }
    }
    assert OnlyHeadingAt(t, |pre|);
  }

  /**
   Nothing outside the section is touched or consulted: rewriting with one block and then
   with another gives what the second alone gives.
   */
  lemma LastBlockWins(text: string, block: string, newer: string)
    requires GoodBlock(block) && Sync(text, block).Ok?
    ensures Sync(Sync(text, block).value, newer) == Sync(text, newer)
  {
    var pre, rest := SyncSplices(text, block);
    ResyncGood(pre, block, rest, newer);
  }

  /** Inserting keeps every character: cutting the insertion out gives the document back. */
  lemma InsertionKeepsAll(text: string, block: string)
    requires IndexOf(text, HEADING, 0) < 0 && Sync(text, block).Ok?
    ensures var f, out := IndexOf(text, SEPARATOR, 0), Sync(text, block).value;
            0 <= f && |out| == |text| + |block| + 2 && out[..f] + out[f + |block| + 2..] == text
  {
    var f, out := IndexOf(text, SEPARATOR, 0), Sync(text, block).value;
    assert out[..f] == text[..f] && out[f + |block| + 2..] == text[f..];
  }

  /** In an accepted document the heading found first is the only one. */
  lemma HeadingIsFirst(text: string, block: string, at: nat)
    requires Sync(text, block).Ok? && OccursAt(text, HEADING, at)
    ensures IndexOf(text, HEADING, 0) == at
  {
    var start := IndexOf(text, HEADING, 0);
    if start < at {
      HeadingShape();
      if at < start + |HEADING| {
        OccursChars(text, HEADING, at, start + |HEADING| - 1 - at);
        OccursChars(text, HEADING, start, |HEADING| - 1);
      }
      assert false;
    }
  }

  /**
   Replacing keeps the document before the first heading and from the first separator
   found after the heading line.
   */
  lemma ReplacementKeepsOutside(text: string, block: string, at: nat)
    requires Sync(text, block).Ok? && OccursAt(text, HEADING, at)
    ensures var out, next := Sync(text, block).value, IndexOf(text, SEPARATOR, at + |HEADING|);
            var kept := if next < 0 then "" else text[next..];
            && at + |block| + 1 + |kept| == |out|
            && out[..at] == text[..at] && out[at + |block| + 1..] == kept
  {
    HeadingIsFirst(text, block, at);
    var out := Sync(text, block).value;
    assert out[..at] == text[..at];
  }

  // ---------------------------------------------------------------- the section that is lost

  /** The first section opened after the heading line, counting the heading's own line end. */
  function FollowingSection(text: string, start: nat): int {
    IndexOf(text, SEPARATOR, start + |HEADING| - 1)
  }

  /**
   The search for the next section starts after the heading's line end.  The section that
   follows is therefore kept exactly when it does not begin on the very next line.
   */
  lemma FollowingSectionKept(text: string, block: string)
    requires IndexOf(text, HEADING, 0) >= 0 && Sync(text, block).Ok?
    ensures var start := IndexOf(text, HEADING, 0);
            var f := FollowingSection(text, start);
            Sync(text, block) == Ok(text[..start] + block + "\n" + (if f < 0 then "" else text[f..])) <==>
              !OccursAt(text, SEPARATOR, start + |HEADING| - 1)
  {
    var start := IndexOf(text, HEADING, 0);
    HeadingShape();
    var f := FollowingSection(text, start);
    var next := IndexOf(text, SEPARATOR, start + |HEADING|);
    if OccursAt(text, SEPARATOR, start + |HEADING| - 1) {
      assert f == start + |HEADING| - 1;
      assert |text[..start] + block + "\n" + (if next < 0 then "" else text[next..])|
           < |text[..start] + block + "\n" + text[f..]|;
    }
  }

  lemma SeparatorChars(text: string, r: nat)
    ensures OccursAt(text, SEPARATOR, r) ==> r + 1 < |text| && text[r] == '\n' && text[r + 1] == '#'
  {
    if OccursAt(text, SEPARATOR, r) {
      OccursChars(text, SEPARATOR, r, 0);
      OccursChars(text, SEPARATOR, r, 1);
    }
  }

  /** A heading whose body is empty swallows the section after it. */
  lemma EmptyBodySwallowsNext(block: string)
    ensures Sync(HEADING + "## Setup\nkeep me\n", block) == Ok(block + "\n")
  {
    var tail := "## Setup\nkeep me\n";
    var text := HEADING + tail;
    HeadingShape();
    assert |tail| == 17 && forall k :: 0 <= k < 16 && tail[k] == '\n' ==> tail[k + 1] != '#';
    assert OccursAt(text, HEADING, 0);
    forall r: nat | |HEADING| <= r ensures !OccursAt(text, SEPARATOR, r) {
      SeparatorChars(text, r);
      assert r + 1 < |text| ==> text[r] == tail[r - |HEADING|] && text[r + 1] == tail[r + 1 - |HEADING|];
    }
    assert IndexOf(text, HEADING, |HEADING|) == -1;
    assert text[..0] + block + "\n" + "" == block + "\n";
  }

  // ---------------------------------------------------------------- the whole run

  datatype Change = Change(path: string, next: string)

  function Changes(paths: seq<string>, files: map<string, string>, block: string)
    : Result<seq<Change>, SyncError>
    requires forall p | p in paths :: p in files
  {
    if paths == [] then Ok([])
    else
      var last := paths[|paths| - 1];
      match Changes(paths[..|paths| - 1], files, block)
      case Err(e) => Err(e)
      case Ok(cs) =>
        match Sync(files[last], block)
        case Err(e) => Err(e)
        case Ok(next) => Ok(if next != files[last] then cs + [Change(last, next)] else cs)
  }

  function Write(files: map<string, string>, changes: seq<Change>): map<string, string> {
    if changes == [] then files
    else
      var c := changes[|changes| - 1];
      Write(files, changes[..|changes| - 1])[c.path := c.next]
  }

  /** Collects the changes of one run; the first unusable document stops it. */
  method Collect(paths: seq<string>, files: map<string, string>, block: string)
    returns (r: Result<seq<Change>, SyncError>)
    requires forall p | p in paths :: p in files
    ensures r == Changes(paths, files, block)
  {
    var changes: seq<Change> := [];
    for i := 0 to |paths|
      invariant Changes(paths[..i], files, block) == Ok(changes)
    {
      assert paths[..i + 1][..i] == paths[..i];
      match Sync(files[paths[i]], block) {
        case Err(e) =>
          StopsHere(paths, files, block, i + 1);
          return Err(e);
        case Ok(next) =>
          if next != files[paths[i]] {
            changes := changes + [Change(paths[i], next)];
          }
      }
    }
    assert paths[..|paths|] == paths;
    return Ok(changes);
  }

  lemma {:induction false} StopsHere(paths: seq<string>, files: map<string, string>, block: string, i: nat)
    requires forall p | p in paths :: p in files
    requires i <= |paths| && Changes(paths[..i], files, block).Err?
    ensures Changes(paths, files, block) == Changes(paths[..i], files, block)
    decreases |paths|
  {
    if i == |paths| {
      assert paths[..i] == paths;
    } else {
      assert paths[..|paths| - 1][..i] == paths[..i];
      StopsHere(paths[..|paths| - 1], files, block, i);
    }
  }

  /** The file has the rewritten document if it was among the paths, and its old one otherwise. */
  ghost predicate Rewritten(after: map<string, string>, paths: seq<string>, files: map<string, string>,
                            block: string, p: string)
    requires p in files
  {
    p in after && if p in paths then Sync(files[p], block) == Ok(after[p]) else after[p] == files[p]
  }

  lemma {:induction false} WrittenText(paths: seq<string>, files: map<string, string>, block: string, p: string)
    requires forall q | q in paths :: q in files
    requires Changes(paths, files, block).Ok? && p in files
    ensures Rewritten(Write(files, Changes(paths, files, block).value), paths, files, block, p)
  {
    if paths != [] {
      var init, last := paths[..|paths| - 1], paths[|paths| - 1];
      assert paths == init + [last];
      WrittenText(init, files, block, p);
      var cs, next := Changes(init, files, block).value, Sync(files[last], block).value;
      WrittenLast(cs, files, Change(last, next));
      RewrittenLast(Write(files, cs), init, files, block, p, last, next);
    }
  }

  lemma RewrittenLast(after: map<string, string>, paths: seq<string>, files: map<string, string>,
                      block: string, p: string, last: string, next: string)
    requires p in files && last in files && Sync(files[last], block) == Ok(next)
    requires Rewritten(after, paths, files, block, p)
    ensures Rewritten(after[last := next], paths + [last], files, block, p)
    ensures next == files[last] ==> Rewritten(after, paths + [last], files, block, p)
  {
  }

  lemma WrittenLast(cs: seq<Change>, files: map<string, string>, c: Change)
    ensures Write(files, cs + [c]) == Write(files, cs)[c.path := c.next]
  {
    assert (cs + [c])[..|cs|] == cs;
  }

  lemma {:induction false} NoChanges(paths: seq<string>, files: map<string, string>, block: string)
    requires forall p | p in paths :: p in files && Sync(files[p], block) == Ok(files[p])
    ensures Changes(paths, files, block) == Ok([])
  {
    if paths != [] {
      NoChanges(paths[..|paths| - 1], files, block);
    }
  }

  lemma {:induction false} WriteKeepsDomain(files: map<string, string>, changes: seq<Change>)
    ensures files.Keys <= Write(files, changes).Keys
  {
    if changes != [] {
      WriteKeepsDomain(files, changes[..|changes| - 1]);
    }
  }

  /** After a successful write run, a check run over the same files finds no drift. */
  lemma CheckPassesAfterWrite(paths: seq<string>, files: map<string, string>, block: string)
    requires GoodBlock(block)
    requires forall p | p in paths :: p in files
    requires Changes(paths, files, block).Ok?
    ensures var after := Write(files, Changes(paths, files, block).value);
            && (forall p | p in paths :: p in after)
            && Changes(paths, after, block) == Ok([])
            && forall p | p in files && p !in paths :: p in after && after[p] == files[p]
  {
    var after := Write(files, Changes(paths, files, block).value);
    forall p | p in files
      ensures p in after
      ensures p in paths ==> Sync(after[p], block) == Ok(after[p])
      ensures p !in paths ==> after[p] == files[p]
    {
      WrittenText(paths, files, block, p);
      if p in paths {
        SyncIsIdempotent(files[p], block);
      }
    }
    NoChanges(paths, after, block);
  }
}
