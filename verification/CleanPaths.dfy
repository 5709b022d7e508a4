/** Path cleaning, as Go's `path.Join` does it: no empty segments, "." dropped, ".." taken back. */
module CleanPaths {
  import opened Paths

  /** A segment that cleaning keeps. */
  predicate Normal(part: string) {
    SlashFree(part) && part != "" && part != "." && part != ".."
  }

  predicate AllNormal(parts: seq<string>) {
    forall i | 0 <= i < |parts| :: Normal(parts[i])
  }

  predicate AllSlashFree(parts: seq<string>) {
    forall i | 0 <= i < |parts| :: SlashFree(parts[i])
  }

  function Step(stack: seq<string>, part: string): seq<string> {
    if part == "" || part == "." then stack
    else if part != ".." then stack + [part]
    else if stack == [] then []
    else stack[..|stack| - 1]
  }

  function Walk(stack: seq<string>, parts: seq<string>): seq<string>
    decreases |parts|
  {
    if parts == [] then stack else Walk(Step(stack, parts[0]), parts[1..])
  }

  /** The segments of a rooted path after cleaning. */
  function Cleaned(path: string): seq<string> {
    Walk([], Split(path))
  }

  function Printed(parts: seq<string>): string {
    "/" + Join(parts)
  }

  predicate IsClean(path: string) {
    path == Printed(Cleaned(path))
  }

  // ---- walking

  lemma {:induction false} WalkOfLonger(stack: seq<string>, parts: seq<string>, more: seq<string>)
    ensures Walk(stack, parts + more) == Walk(Walk(stack, parts), more)
    decreases |parts|
  {
    if parts == [] {
      assert parts + more == more;
    } else {
      var all, tail := parts + more, parts[1..];
      assert all[0] == parts[0] && all[1..] == tail + more;
      WalkOfLonger(Step(stack, parts[0]), tail, more);
    }
  }

  lemma {:induction false} WalkNormal(stack: seq<string>, parts: seq<string>)
    requires AllNormal(parts)
    ensures Walk(stack, parts) == stack + parts
    decreases |parts|
  {
    if parts != [] {
      WalkNormal(stack + [parts[0]], parts[1..]);
      assert stack + [parts[0]] + parts[1..] == stack + parts;
    }
  }

  lemma {:induction false} WalkStaysNormal(stack: seq<string>, parts: seq<string>)
    requires AllNormal(stack) && AllSlashFree(parts)
    ensures AllNormal(Walk(stack, parts))
    decreases |parts|
  {
    if parts != [] {
      WalkStaysNormal(Step(stack, parts[0]), parts[1..]);
    }
  }

  lemma CleanedIsNormal(path: string)
    ensures AllNormal(Cleaned(path))
  {
    WalkStaysNormal([], Split(path));
  }

  /** Where a walk ends up, every segment was walked, or it has been there from the start with all below it. */
  lemma {:induction false} WalkOrigin(stack: seq<string>, parts: seq<string>, i: nat)
    requires i < |Walk(stack, parts)|
    ensures || Walk(stack, parts)[i] in parts
            || (i < |stack| && Walk(stack, parts)[..i + 1] == stack[..i + 1])
    decreases |parts|
  {
    if parts != [] {
      var next := Step(stack, parts[0]);
      WalkOrigin(next, parts[1..], i);
      var end := Walk(stack, parts);
      if i < |next| && end[..i + 1] == next[..i + 1] {
        assert end[i] == end[..i + 1][i] == next[i];
        if i < |stack| {
          assert next[..i + 1] == stack[..i + 1];
        }
      }
    }
  }

  // ---- lengths

  function Length(parts: seq<string>): nat {
    if parts == [] then 0 else |parts[0]| + 1 + Length(parts[1..])
  }

  lemma {:induction false} LengthOfLonger(parts: seq<string>, part: string)
    ensures Length(parts + [part]) == Length(parts) + |part| + 1
  {
    if parts != [] {
      LengthOfLonger(parts[1..], part);
      assert (parts + [part])[1..] == parts[1..] + [part];
    }
  }

  lemma {:induction false} PartIsNoLonger(parts: seq<string>, part: string)
    requires part in parts
    ensures |part| < Length(parts)
  {
    if part != parts[0] {
      PartIsNoLonger(parts[1..], part);
    }
  }

  lemma StepShortens(stack: seq<string>, part: string)
    ensures Length(Step(stack, part)) <= Length(stack) + |part| + 1
  {
    LengthOfLonger(stack, part);
    if stack != [] {
      var init, last := stack[..|stack| - 1], stack[|stack| - 1];
      LengthOfLonger(init, last);
      assert stack == init + [last];
    }
  }

  lemma {:induction false} WalkShortens(stack: seq<string>, parts: seq<string>)
    ensures Length(Walk(stack, parts)) <= Length(stack) + Length(parts)
    decreases |parts|
  {
    if parts != [] {
      StepShortens(stack, parts[0]);
      WalkShortens(Step(stack, parts[0]), parts[1..]);
    }
  }

  lemma {:induction false} LengthOfSplit(s: string)
    ensures Length(Split(s)) == |s| + 1
  {
    if s != "" {
      LengthOfSplit(s[1..]);
      var rest := Split(s[1..]);
      if s[0] == '/' {
        assert Split(s)[1..] == rest;
      } else {
        assert Split(s)[1..] == rest[1..];
      }
    }
  }

  /** Cleaning never makes a rooted path longer. */
  lemma CleanedIsNoLonger(path: string)
    requires path == "" || path[0] == '/'
    ensures Length(Cleaned(path)) <= |path|
  {
    if path != "" {
      var rest := Split(path[1..]);
      assert Split(path) == [""] + rest;
      assert Split(path)[1..] == rest;
      WalkShortens([], rest);
      LengthOfSplit(path[1..]);
    }
  }

  // ---- splitting and printing

  lemma {:induction false} SplitOfLonger(s: string, suffix: string)
    requires suffix != "" && suffix[0] == '/'
    ensures Split(s + suffix) == Split(s) + Split(suffix[1..])
  {
    if s == "" {
      assert s + suffix == suffix;
    } else {
      var tail := s[1..];
      assert (s + suffix)[1..] == tail + suffix;
      SplitOfLonger(tail, suffix);
      SplitOfStep(s, s + suffix, Split(tail), Split(suffix[1..]));
    }
  }

  lemma Regroup(head: string, parts: seq<string>, more: seq<string>)
    ensures [head] + (parts + more) == [head] + parts + more
  {
  }

  lemma SplitOfStep(s: string, longer: string, parts: seq<string>, more: seq<string>)
    requires s != "" && longer != "" && longer[0] == s[0]
    requires Split(s[1..]) == parts && Split(longer[1..]) == parts + more
    ensures Split(longer) == Split(s) + more
  {
    if s[0] == '/' {
      Regroup("", parts, more);
    } else {
      assert (parts + more)[0] == parts[0] && (parts + more)[1..] == parts[1..] + more;
      Regroup([s[0]] + parts[0], parts[1..], more);
    }
  }

  lemma CleanedOfLonger(path: string, suffix: string)
    requires suffix != "" && suffix[0] == '/'
    ensures Cleaned(path + suffix) == Walk(Cleaned(path), Split(suffix[1..]))
  {
    SplitOfLonger(path, suffix);
    WalkOfLonger([], Split(path), Split(suffix[1..]));
  }

  /** Joining a clean path to another appends its segments. */
  lemma CleanedBehind(path: string, clean: string)
    requires IsClean(clean)
    ensures Cleaned(path + ("/" + clean)) == Cleaned(path) + Cleaned(clean)
  {
    CleanedOfLonger(path, "/" + clean);
    assert ("/" + clean)[1..] == clean;
    CleanedIsNormal(clean);
    WalkPrinted(Cleaned(path), Cleaned(clean));
  }

  lemma WalkPrinted(stack: seq<string>, parts: seq<string>)
    requires AllNormal(parts)
    ensures Walk(stack, Split(Printed(parts))) == stack + parts
  {
    SplitOfPrinted(parts);
    WalkOfLonger(stack, [""], Split(Join(parts)));
    WalkNothing(stack);
    if parts != [] {
      WalkNormal(stack, parts);
    }
  }

  /** Cleaning a second time changes nothing. */
  lemma CleanedIsClean(path: string)
    ensures IsClean(Printed(Cleaned(path)))
  {
    CleanedIsNormal(path);
    WalkPrinted([], Cleaned(path));
    assert [] + Cleaned(path) == Cleaned(path);
  }

  /** ".." takes a segment back, and an empty one or "." adds nothing. */
  lemma CleanedThere(path: string, word: string)
    requires Normal(word)
    ensures Cleaned(path + ("/" + word)) == Cleaned(path) + [word]
    ensures Cleaned(path + ("/" + word) + ("/" + "..")) == Cleaned(path)
    ensures Cleaned(path + ("/" + ".")) == Cleaned(path + ("/" + "")) == Cleaned(path)
  {
    OneSegment(path, word);
    OneSegment(path + ("/" + word), "..");
    OneSegment(path, ".");
    OneSegment(path, "");
  }

  lemma OneSegment(path: string, part: string)
    requires SlashFree(part)
    ensures Cleaned(path + ("/" + part)) == Step(Cleaned(path), part)
  {
    CleanedOfLonger(path, "/" + part);
    assert ("/" + part)[1..] == part;
    SplitOfHead(part, "");
    assert [part][1..] == [];
    assert Walk(Cleaned(path), [part]) == Walk(Step(Cleaned(path), part), []);
  }

  lemma WalkNothing(stack: seq<string>)
    ensures Walk(stack, [""]) == stack
  {
    assert [""][1..] == [];
    assert Walk(stack, [""]) == Walk(Step(stack, ""), []);
  }

  lemma SplitOfPrinted(parts: seq<string>)
    requires AllNormal(parts)
    ensures Split(Printed(parts)) == [""] + Split(Join(parts))
    ensures Split(Join(parts)) == if parts == [] then [""] else parts
  {
    assert Printed(parts)[1..] == Join(parts);
    if parts != [] {
      SplitOfJoin(parts);
    }
  }

  lemma PrintedInjective(a: seq<string>, b: seq<string>)
    requires AllSlashFree(a) && AllSlashFree(b) && a != [] && b != []
    ensures Printed(a) == Printed(b) ==> a == b
  {
    assert Printed(a)[1..] == Join(a) && Printed(b)[1..] == Join(b);
    SplitOfJoin(a);
    SplitOfJoin(b);
  }

  lemma JoinOfPair(a: string, b: string, rest: seq<string>)
    requires rest != []
    ensures Join([a, b] + rest) == a + "/" + b + "/" + Join(rest)
  {
    assert ([a, b] + rest)[1..] == [b] + rest;
    assert ([b] + rest)[1..] == rest;
    assert Join([b] + rest) == b + "/" + Join(rest);
    assert a + "/" + (b + "/" + Join(rest)) == a + "/" + b + "/" + Join(rest);
  }

  // ---- one more segment and a name

  lemma CleanedBehindSegment(path: string, word: string, more: string)
    requires Normal(word)
    ensures Cleaned(path + ("/" + word + "/" + more)) == Walk(Cleaned(path) + [word], Split(more))
  {
    var text, suffix := word + "/" + more, "/" + word + "/" + more;
    assert suffix == "/" + text;
    assert suffix[1..] == text;
    CleanedOfLonger(path, suffix);
    SplitOfHead(word, more);
    WalkWord(Cleaned(path), word, Split(more));
  }

  lemma WalkWord(stack: seq<string>, word: string, more: seq<string>)
    requires Normal(word)
    ensures Walk(stack, [word] + more) == Walk(stack + [word], more)
  {
    assert ([word] + more)[1..] == more;
  }

  lemma LandsLiterally(stack: seq<string>, word: string, name: string)
    requires AllNormal(stack) && Normal(word)
    ensures Walk(stack + [word], Split(name)) == [word, name] <==> Normal(name) && stack == []
  {
    WalkStaysNormal(stack + [word], Split(name));
    if Walk(stack + [word], Split(name)) == [word, name] {
      assert Normal([word, name][1]);
    }
    if Normal(name) {
      SplitOfHead(name, "");
      WalkNormal(stack + [word], [name]);
    }
  }

  /** A name longer than all that is walked can only have been there before. */
  lemma LandsByClimbing(stack: seq<string>, word: string, name: string, walked: string)
    requires |walked| < |name| && name != word
    ensures Walk(stack + [word], Split(walked)) == [word, name] ==> [word, name] <= stack
  {
    var end := Walk(stack + [word], Split(walked));
    if end == [word, name] {
      WalkOrigin(stack + [word], Split(walked), 1);
      LengthOfSplit(walked);
      if name in Split(walked) {
        PartIsNoLonger(Split(walked), name);
      }
      assert end[..2] == end;
      assert (stack + [word])[1] == name;
    }
  }
}
