/**
  Which images a prune removes (api/server.go): those hostd marked, grouped by the repository
  they were pushed under, newest first, sparing what is held and, where something on the machine
  still names the repository, its `keep` newest versions.
*/
module ImagePrune {
  import opened Options
  import opened Ordering

  const MANAGED_TAG_PREFIX: string := "hostd-"
  const SHOWN: nat := 12

  datatype Holder = UsedByContainer | UsedByDeclared

  datatype Image = Image(digest: string, tags: seq<string>, created: int, bytes: nat)

  datatype ImageChange = ImageChange(digest: string, repository: string, tags: seq<string>, bytes: nat)

  // References ---------------------------------------------------------------------------

  /** Where the last colon is, or -1. */
  function LastColon(s: string): (at: int)
    ensures -1 <= at < |s| && (at >= 0 ==> s[at] == ':') && forall i :: at < i < |s| ==> s[i] != ':'
  {
    if s == "" then -1 else if s[|s| - 1] == ':' then |s| - 1 else LastColon(s[..|s| - 1])
  }

  function RepositoryOf(reference: string): string {
    var at := LastColon(reference);
    if at < 0 || '/' in reference[at + 1..] then reference else reference[..at]
  }

  function ManagedTag(content: string): string {
    MANAGED_TAG_PREFIX + if |content| > SHOWN then content[..SHOWN] else content
  }

  /** A tag whose name, after the last colon, hostd gave. */
  predicate IsMark(tag: string) {
    LastColon(tag) >= 0 && MANAGED_TAG_PREFIX <= tag[LastColon(tag) + 1..]
  }

  function FirstMark(tags: seq<string>): Option<string> {
    if tags == [] then None else if IsMark(tags[0]) then Some(tags[0]) else FirstMark(tags[1..])
  }

  /** The repository hostd marked an image under, if it did. */
  function MarkedRepository(tags: seq<string>): Option<string> {
    match FirstMark(tags)
    case None => None
    case Some(tag) => if LastColon(tag) < 0 then None else Some(tag[..LastColon(tag)])
  }

  method ManagedTagIn(tags: seq<string>) returns (mark: Option<string>)
    ensures mark == FirstMark(tags)
  {
    hide IsMark;
    assert tags[0..] == tags;
    for i := 0 to |tags|
      invariant FirstMark(tags[i..]) == FirstMark(tags)
    {
      assert tags[i..][1..] == tags[i + 1..];
      if !IsMark(tags[i]) { continue; }
      return Some(tags[i]);
    }
    return None;
  }

  lemma {:induction false} ColonIsAt(a: string, b: string)
    requires ':' !in b
    ensures LastColon(a + ":" + b) == |a|
  {
    var s := a + ":" + b;
    if b == "" {
    } else {
      var front, last := b[..|b| - 1], b[|b| - 1];
      assert last in b;
      assert s[..|s| - 1] == a + ":" + front;
      ColonIsAt(a, front);
    }
  }

  /** A reference of the repository: its name, a colon and a tag without one. */
  ghost predicate Under(reference: string, repo: string) {
    exists tag: string :: ':' !in tag && reference == repo + ":" + tag
  }

  ghost predicate FirstOf(tags: seq<string>, i: int) {
    0 <= i < |tags| && IsMark(tags[i]) && forall j :: 0 <= j < i ==> !IsMark(tags[j])
  }

  lemma {:induction false} FirstMarkIsFirst(tags: seq<string>, i: int)
    requires FirstOf(tags, i)
    ensures FirstMark(tags) == Some(tags[i])
  {
    hide IsMark;
    if i == 0 {
    } else {
      assert IsMark(tags[1..][i - 1]) && !IsMark(tags[0]);
      forall j | 0 <= j < i - 1 ensures !IsMark(tags[1..][j]) {
        assert tags[1..][j] == tags[j + 1];
      }
      FirstMarkIsFirst(tags[1..], i - 1);
    }
  }

  lemma {:induction false} SomeMarkIsFirst(tags: seq<string>, mark: string) returns (i: int)
    requires mark in tags && IsMark(mark)
    ensures FirstOf(tags, i)
  {
    hide IsMark;
    if IsMark(tags[0]) {
      i := 0;
    } else {
      i := SomeMarkIsFirst(tags[1..], mark);
      i := i + 1;
    }
  }

  lemma UnderIsBeforeTheColon(reference: string, repo: string)
    ensures Under(reference, repo) <==> LastColon(reference) >= 0 && reference[..LastColon(reference)] == repo
  {
    hide LastColon;
    var at := LastColon(reference);
    if at >= 0 {
      SplitAt(reference, at);
    }
    if Under(reference, repo) {
      var tag: string :| ':' !in tag && reference == repo + ":" + tag;
      ColonIsAt(repo, tag);
      assert reference[..|repo|] == repo;
    }
  }

  lemma SplitAt(s: string, at: nat)
    requires at < |s| && s[at] == ':' && forall i :: at < i < |s| ==> s[i] != ':'
    ensures Under(s, s[..at])
  {
    var tag := s[at + 1..];
    assert s == s[..at] + ":" + tag;
  }

  lemma PushedMark(name: string, content: string)
    requires ':' !in content && '/' !in content
    ensures var mark := RepositoryOf(name) + ":" + ManagedTag(content);
            IsMark(mark) && Under(mark, RepositoryOf(name)) && RepositoryOf(mark) == RepositoryOf(name)
  {
    var repo, tag := RepositoryOf(name), ManagedTag(content);
    var mark := repo + ":" + tag;
    var shown := if |content| > SHOWN then content[..SHOWN] else content;
    assert ':' !in shown && '/' !in shown;
    assert ':' !in MANAGED_TAG_PREFIX && '/' !in MANAGED_TAG_PREFIX;
    assert ':' !in tag && '/' !in tag;
    ColonIsAt(repo, tag);
    assert mark[|repo| + 1..] == tag && mark[..|repo|] == repo;
    assert MANAGED_TAG_PREFIX <= tag;
  }

  /**
    What a push writes against what a prune reads back, wherever the mark stands among the
    image's tags: the image counts for the repository it was pushed under exactly when the
    first mark among its tags is of that repository. The same content pushed under a second
    name has two marks and counts for the one the runtime lists first.
  */
  lemma MarkNamesItsRepository(name: string, content: string, tags: seq<string>)
    requires ':' !in content && '/' !in content && RepositoryOf(name) + ":" + ManagedTag(content) in tags
    ensures MarkedRepository(tags) == Some(RepositoryOf(name))
            <==> forall i :: FirstOf(tags, i) ==> Under(tags[i], RepositoryOf(name))
    ensures MarkedRepository(tags).Some?
  {
    hide IsMark, Under;
    PushedMark(name, content);
    var first := SomeMarkIsFirst(tags, RepositoryOf(name) + ":" + ManagedTag(content));
    FirstMarkIsFirst(tags, first);
    UnderIsBeforeTheColon(tags[first], RepositoryOf(name));
    MarkHasAColon(tags[first]);
    forall i | FirstOf(tags, i) ensures i == first {}
  }

  lemma MarkHasAColon(tag: string)
    requires IsMark(tag)
    ensures LastColon(tag) >= 0
  {
  }

  // Holders --------------------------------------------------------------------------------

  type Holders = map<string, Holder>

  predicate Held(image: Image, holders: Holders) {
    image.digest in holders || exists tag :: tag in image.tags && tag in holders
  }

  method HeldBy(image: Image, holders: Holders) returns (reason: Option<Holder>)
    ensures reason.Some? <==> Held(image, holders)
    ensures image.digest in holders ==> reason == Some(holders[image.digest])
  {
    if image.digest in holders { return Some(holders[image.digest]); }
    for i := 0 to |image.tags|
      invariant forall j :: 0 <= j < i ==> image.tags[j] !in holders
    {
      if image.tags[i] in holders { return Some(holders[image.tags[i]]); }
    }
    return None;
  }

  // The policy -----------------------------------------------------------------------------

  /** Newest first; of one instant, by digest. */
  predicate Ahead(a: Image, b: Image) {
    if a.created != b.created then a.created > b.created else Before(a.digest, b.digest)
  }

  predicate InLine(image: Image, repo: string) {
    MarkedRepository(image.tags) == Some(repo)
  }

  /** Something on the machine names the repository: a declaration, or what holds an image of it. */
  ghost predicate Named(images: set<Image>, holders: Holders, repo: string) {
    || (exists n :: n in holders && holders[n] == UsedByDeclared && RepositoryOf(n) == repo)
    || (exists x :: x in images && InLine(x, repo) && Held(x, holders))
  }

  /** The versions of an image's line that are newer than it. */
  function NewerVersions(images: set<Image>, image: Image): set<Image> {
    set x | x in images && MarkedRepository(x.tags) == MarkedRepository(image.tags) && Ahead(x, image)
  }

  ghost predicate Goes(images: set<Image>, holders: Holders, keep: int, image: Image) {
    var repo := MarkedRepository(image.tags);
    && image in images && repo.Some? && !Held(image, holders)
    && (Named(images, holders, repo.value) ==> |NewerVersions(images, image)| >= keep)
  }

  ghost predicate DistinctDigests(images: set<Image>) {
    forall x, y :: x in images && y in images && x.digest == y.digest ==> x == y
  }

  /** The order of the answer: by repository, and newest first in each. */
  predicate ListedBefore(a: Image, b: Image) {
    var r, s := MarkedRepository(a.tags), MarkedRepository(b.tags);
    if r == s then Ahead(a, b) else r.Some? && s.Some? && Before(r.value, s.value)
  }

  function ChangeOf(image: Image): ImageChange {
    var repo := MarkedRepository(image.tags);
    ImageChange(image.digest, if repo.Some? then repo.value else "", image.tags, image.bytes)
  }

  /** What a prune answers: every image that goes, once, in the order of the answer. */
  ghost predicate IsPrune(images: set<Image>, holders: Holders, keep: int, gone: seq<Image>) {
    Strict(gone, ListedBefore) && forall x :: x in gone <==> Goes(images, holders, keep, x)
  }

  lemma AheadIsStrict(a: Image, b: Image)
    ensures Ahead(a, b) ==> !Ahead(b, a)
  {
    if Before(a.digest, b.digest) { BeforeIsAsymmetric(a.digest, b.digest); }
  }

  lemma ListedIsStrict(a: Image, b: Image)
    ensures ListedBefore(a, b) ==> !ListedBefore(b, a)
  {
    AheadIsStrict(a, b);
    var r, s := MarkedRepository(a.tags), MarkedRepository(b.tags);
    if r.Some? && s.Some? && Before(r.value, s.value) { BeforeIsAsymmetric(r.value, s.value); }
  }

  /** The answer depends on what the machine holds, not on the order it was listed in. */
  lemma PruneIsUnique(images: set<Image>, holders: Holders, keep: int, a: seq<Image>, b: seq<Image>)
    requires IsPrune(images, holders, keep, a) && IsPrune(images, holders, keep, b)
    ensures a == b
  {
    forall x, y | ListedBefore(x, y) ensures !ListedBefore(y, x) {
      ListedIsStrict(x, y);
    }
    StrictIsUnique(a, b, ListedBefore);
  }

  // What the policy promises ----------------------------------------------------------------

  lemma AheadIsTotal(a: Image, b: Image)
    requires a.digest != b.digest
    ensures Ahead(a, b) || Ahead(b, a)
  {
    BeforeIsTotal(a.digest, b.digest);
  }

  lemma AheadChains(a: Image, b: Image, c: Image)
    requires Ahead(a, b) && Ahead(b, c)
    ensures Ahead(a, c)
  {
    if a.created == b.created == c.created { BeforeIsTransitive(a.digest, b.digest, c.digest); }
  }

  ghost function Line(images: set<Image>, repo: string): set<Image> {
    set x | x in images && InLine(x, repo)
  }

  ghost function Staying(images: set<Image>, holders: Holders, keep: int, repo: string): set<Image> {
    set x | x in images && InLine(x, repo) && !Goes(images, holders, keep, x)
  }

  /** The last of a set of versions, in the order of age. */
  lemma {:induction false} ThereIsALast(line: set<Image>) returns (last: Image)
    requires line != {} && DistinctDigests(line)
    ensures last in line && forall x :: x in line && x != last ==> Ahead(x, last)
    decreases |line|
  {
    last :| last in line;
    if line == {last} {
    } else {
      var other := ThereIsALast(line - {last});
      AheadIsTotal(last, other);
      if Ahead(last, other) {
        last := other;
      } else {
        forall x | x in line && x != last ensures Ahead(x, last) {
          if x != other { AheadChains(x, other, last); }
        }
      }
    }
  }

  /** Of any line, at least as many have fewer than `keep` newer ones as there are, up to `keep`. */
  lemma {:induction false} NewestAreFew(line: set<Image>, keep: nat)
    requires DistinctDigests(line)
    ensures var few := set x | x in line && |AheadOf(line, x)| < keep;
            |few| >= if |line| < keep then |line| else keep
    decreases |line|
  {
    if line == {} {
    } else {
      var last := ThereIsALast(line);
      var rest := line - {last};
      NewestAreFew(rest, keep);
      var few, fewer := set x | x in line && |AheadOf(line, x)| < keep, set x | x in rest && |AheadOf(rest, x)| < keep;
      forall x | x in rest ensures AheadOf(line, x) == AheadOf(rest, x) {
        AheadIsStrict(x, last);
      }
      AheadIsStrict(last, last);
      assert AheadOf(line, last) == rest;
      if |rest| < keep {
        assert last in few;
        SmallerSet(fewer + {last}, few);
      } else {
        SmallerSet(fewer, few);
      }
    }
  }

  function AheadOf(line: set<Image>, image: Image): set<Image> {
    set x | x in line && Ahead(x, image)
  }

  /** A repository that is named keeps its newest `keep` versions at the least, or all it has. */
  lemma NewestStay(images: set<Image>, holders: Holders, keep: nat, repo: string)
    requires DistinctDigests(images) && Named(images, holders, repo)
    ensures |Staying(images, holders, keep, repo)| >= if |Line(images, repo)| < keep then |Line(images, repo)| else keep
  {
    hide Named, AheadOf, Staying;
    var line := Line(images, repo);
    NewestAreFew(line, keep);
    var few := set x | x in line && |AheadOf(line, x)| < keep;
    forall x | x in few ensures x in Staying(images, holders, keep, repo) {
      FewAheadStays(images, holders, keep, repo, x);
    }
    SmallerSet(few, Staying(images, holders, keep, repo));
  }

  lemma FewAheadStays(images: set<Image>, holders: Holders, keep: nat, repo: string, x: Image)
    requires Named(images, holders, repo) && x in Line(images, repo) && |AheadOf(Line(images, repo), x)| < keep
    ensures x in Staying(images, holders, keep, repo)
  {
    hide Named, Held, Ahead, MarkedRepository;
    assert NewerVersions(images, x) == AheadOf(Line(images, repo), x);
  }

  /** One that nothing names keeps none. */
  lemma UnnamedKeepNothing(images: set<Image>, holders: Holders, keep: int, repo: string)
    requires !Named(images, holders, repo)
    ensures Staying(images, holders, keep, repo) == {}
  {
  }

  /** What is removed is no newer than anything that stays without being held. */
  lemma OldestGoFirst(images: set<Image>, holders: Holders, keep: int, a: Image, b: Image)
    requires Goes(images, holders, keep, a) && b in images && MarkedRepository(b.tags) == MarkedRepository(a.tags)
    requires !Held(b, holders) && !Goes(images, holders, keep, b)
    ensures !Ahead(a, b)
  {
    if Ahead(a, b) {
      forall x | x in NewerVersions(images, a) ensures x in NewerVersions(images, b) {
        AheadChains(x, a, b);
      }
      SmallerSet(NewerVersions(images, a), NewerVersions(images, b));
    }
  }

  ghost function Survivors(images: set<Image>, holders: Holders, keep: int): set<Image> {
    set x | x in images && !Goes(images, holders, keep, x)
  }

  /** Run again on what it left, with the same holders, a prune removes nothing. */
  lemma PruneSettles(images: set<Image>, holders: Holders, keep: int)
    ensures forall x :: !Goes(Survivors(images, holders, keep), holders, keep, x)
  {
    var left := Survivors(images, holders, keep);
    forall x ensures !Goes(left, holders, keep, x) {
      var repo := MarkedRepository(x.tags);
      if x in left && repo.Some? && !Held(x, holders) {
        NamedStays(images, holders, keep, repo.value);
        SmallerSet(NewerVersions(left, x), NewerVersions(images, x));
      }
    }
  }

  lemma NamedStays(images: set<Image>, holders: Holders, keep: int, repo: string)
    requires Named(images, holders, repo)
    ensures Named(Survivors(images, holders, keep), holders, repo)
  {
    if x :| x in images && InLine(x, repo) && Held(x, holders) {
      assert x in Survivors(images, holders, keep);
    }
  }

  // The algorithm -------------------------------------------------------------------------------

  function Members(s: seq<Image>): set<Image> {
    set x | x in s
  }

  function Changes(gone: seq<Image>): seq<ImageChange> {
    seq(|gone|, i requires 0 <= i < |gone| => ChangeOf(gone[i]))
  }

  predicate NewestFirst(a: Image, b: Image) {
    if a.created != b.created then a.created > b.created else AtMost(a.digest, b.digest)
  }

  lemma NewestFirstIsTotal()
    ensures TotalOrder(NewestFirst)
    ensures forall a, b :: NewestFirst(a, b) <==> !Ahead(b, a)
  {
    StringsAreOrdered();
    forall a, b, c | NewestFirst(a, b) && NewestFirst(b, c) ensures NewestFirst(a, c) {
      assert AtMost(a.digest, b.digest) && AtMost(b.digest, c.digest) ==> AtMost(a.digest, c.digest);
    }
  }

  ghost predicate DifferentDigests(s: seq<Image>) {
    forall i, j :: 0 <= i < j < |s| ==> s[i].digest != s[j].digest
  }

  /** Sorting by age leaves nothing in doubt when the digests differ. */
  lemma SortedByAge(versions: seq<Image>)
    requires DifferentDigests(versions)
    ensures var sorted := Sort(versions, NewestFirst);
            Strict(sorted, Ahead) && Members(sorted) == Members(versions) && |sorted| == |versions|
  {
    var sorted := Sort(versions, NewestFirst);
    NewestFirstIsTotal();
    SortPermutes(versions, NewestFirst);
    SortSorts(versions, NewestFirst);
    assert |multiset(sorted)| == |multiset(versions)|;
    forall x ensures x in sorted <==> x in versions {
      assert x in multiset(sorted) <==> x in multiset(versions);
    }
    forall i, j | 0 <= i < j < |sorted| ensures Ahead(sorted[i], sorted[j]) {
      assert NewestFirst(sorted[i], sorted[j]);
      if sorted[i] == sorted[j] {
        RepeatCounts(sorted, i, j);
        DistinctCount(versions);
      } else {
        assert sorted[i] in versions && sorted[j] in versions;
        AheadIsTotal(sorted[i], sorted[j]);
      }
    }
  }

  lemma {:induction false} PlaceIsRank(sorted: seq<Image>, at: nat)
    requires Strict(sorted, Ahead) && at < |sorted|
    ensures |AheadOf(Members(sorted), sorted[at])| == at
  {
    forall x ensures x in AheadOf(Members(sorted), sorted[at]) <==> x in sorted[..at] {
      if x in sorted && Ahead(x, sorted[at]) {
        var i :| 0 <= i < |sorted| && sorted[i] == x;
        AheadIsStrict(x, sorted[at]);
        assert i < at;
      }
    }
    assert AheadOf(Members(sorted), sorted[at]) == Members(sorted[..at]);
    StrictSize(sorted[..at]);
  }

  lemma {:induction false} StrictSize(s: seq<Image>)
    requires Strict(s, Ahead)
    ensures |Members(s)| == |s|
  {
    if s == [] {
    } else {
      var front, last := s[..|s| - 1], s[|s| - 1];
      StrictSize(front);
      assert s == front + [last];
      assert Members(s) == Members(front) + {last};
      AheadIsStrict(last, last);
    }
  }

  method SortVersions(versions: seq<Image>) returns (sorted: seq<Image>)
    requires DifferentDigests(versions)
    ensures Strict(sorted, Ahead) && Members(sorted) == Members(versions) && |sorted| == |versions|
  {
    var a := new Image[|versions|](i requires 0 <= i < |versions| => versions[i]);
    assert a[..] == versions;
    SortInPlace(a, NewestFirst);
    sorted := a[..];
    SortedByAge(versions);
  }

  /** One repository's versions, newest first, and what of them goes. */
  method PruneLine(versions: seq<Image>, repo: string, holders: Holders, floor: int)
    returns (remove: seq<ImageChange>, kept: nat, gone: seq<Image>)
    requires DifferentDigests(versions) && forall x :: x in versions ==> InLine(x, repo)
    ensures remove == Changes(gone) && kept + |gone| == |versions| && Strict(gone, Ahead)
    ensures forall x :: x in gone <==> x in versions && Falls(x, Members(versions), holders, floor)
  {
    hide Ahead, InLine, Held, Changes, AheadOf, DifferentDigests;
    var sorted := SortVersions(versions);
    SameSet(sorted, versions);
    ghost var line := Members(sorted);
    remove, kept, gone := [], 0, [];
    NoChange();
    for at := 0 to |sorted|
      invariant remove == Changes(gone) && kept + |gone| == at && gone == Falling(sorted[..at], line, holders, floor)
    {
      var image := sorted[at];
      PlaceIsRank(sorted, at);
      assert sorted[..at + 1][..at] == sorted[..at] && image in sorted;
      var reason := HeldBy(image, holders);
      if at < floor || reason.Some? {
        kept := kept + 1;
      } else {
        OneMoreChange(gone, image, repo);
        remove := remove + [ImageChange(image.digest, repo, image.tags, image.bytes)];
        gone := gone + [image];
      }
    }
    assert sorted[..|sorted|] == sorted;
    FallingIs(sorted, line, holders, floor);
  }

  lemma NoChange()
    ensures Changes([]) == []
  {
  }

  ghost predicate Falls(x: Image, line: set<Image>, holders: Holders, floor: int) {
    !Held(x, holders) && |AheadOf(line, x)| >= floor
  }

  ghost function Falling(s: seq<Image>, line: set<Image>, holders: Holders, floor: int): seq<Image> {
    if s == [] then []
    else Falling(s[..|s| - 1], line, holders, floor) + if Falls(s[|s| - 1], line, holders, floor) then [s[|s| - 1]] else []
  }

  lemma {:induction false} FallingIs(s: seq<Image>, line: set<Image>, holders: Holders, floor: int)
    requires Strict(s, Ahead)
    ensures Strict(Falling(s, line, holders, floor), Ahead)
    ensures forall x :: x in Falling(s, line, holders, floor) <==> x in s && Falls(x, line, holders, floor)
  {
    hide Ahead, Falls;
    if s == [] {
    } else {
      var front, last := s[..|s| - 1], s[|s| - 1];
      FallingIs(front, line, holders, floor);
      assert s == front + [last];
      forall x | x in front ensures Ahead(x, last) {
        var i :| 0 <= i < |front| && front[i] == x;
        assert s[i] == x;
      }
    }
  }

  lemma OneMoreChange(gone: seq<Image>, image: Image, repo: string)
    requires InLine(image, repo)
    ensures Changes(gone + [image]) == Changes(gone) + [ImageChange(image.digest, repo, image.tags, image.bytes)]
  {
  }

  lemma SameSet(a: seq<Image>, b: seq<Image>)
    requires Members(a) == Members(b)
    ensures forall x :: x in a <==> x in b
  {
    forall x ensures x in a <==> x in b {
      assert x in Members(a) <==> x in Members(b);
    }
  }

  /** The repositories something still names. */
  lemma NamedBy(held: seq<Image>, holders: Holders, r: string)
    ensures Named(Members(held), holders, r) <==>
              || (exists n :: n in holders && holders[n] == UsedByDeclared && RepositoryOf(n) == r)
              || (exists x :: x in held && InLine(x, r) && Held(x, holders))
  {
    hide InLine, Held, RepositoryOf;
    if x :| x in held && InLine(x, r) && Held(x, holders) {
      assert x in Members(held);
    }
  }

  method NamedRepositories(held: seq<Image>, holders: Holders) returns (named: set<string>)
    ensures forall r :: r in named <==> Named(Members(held), holders, r)
  {
    hide Held, RepositoryOf, MarkedRepository;
    named := {};
    var todo := holders.Keys;
    while todo != {}
      invariant todo <= holders.Keys
      invariant forall r :: r in named <==> exists n :: n in holders && n !in todo && holders[n] == UsedByDeclared && RepositoryOf(n) == r
      decreases |todo|
    {
      var n :| n in todo;
      todo := todo - {n};
      if holders[n] == UsedByDeclared { named := named + {RepositoryOf(n)}; }
    }
    ghost var declared := named;
    for i := 0 to |held|
      invariant forall r :: r in named <==> r in declared || exists x :: x in held[..i] && InLine(x, r) && Held(x, holders)
    {
      assert held[..i + 1] == held[..i] + [held[i]];
      var repo := MarkedRepository(held[i].tags);
      var reason := HeldBy(held[i], holders);
      if repo.Some? && reason.Some? { named := named + {repo.value}; }
    }
    assert held[..|held|] == held;
    forall r ensures r in named <==> Named(Members(held), holders, r) {
      NamedBy(held, holders, r);
    }
  }

  function VersionsOf(held: seq<Image>, repo: string): seq<Image> {
    if held == [] then []
    else VersionsOf(held[..|held| - 1], repo) + if InLine(held[|held| - 1], repo) then [held[|held| - 1]] else []
  }

  lemma {:induction false} VersionsAre(held: seq<Image>, repo: string)
    requires DifferentDigests(held)
    ensures forall x :: x in VersionsOf(held, repo) <==> x in held && InLine(x, repo)
    ensures DifferentDigests(VersionsOf(held, repo))
  {
    hide InLine;
    if held == [] {
    } else {
      var front, last := held[..|held| - 1], held[|held| - 1];
      assert held == front + [last];
      VersionsAre(front, repo);
      NewDigest(front, last, VersionsOf(front, repo));
    }
  }

  lemma NewDigest(front: seq<Image>, last: Image, versions: seq<Image>)
    requires DifferentDigests(front + [last]) && DifferentDigests(versions) && forall x :: x in versions ==> x in front
    ensures DifferentDigests(versions + [last])
  {
    forall i | 0 <= i < |versions| ensures versions[i].digest != last.digest {
      assert versions[i] in versions;
      var j :| 0 <= j < |front| && front[j] == versions[i];
      assert (front + [last])[j].digest != (front + [last])[|front|].digest;
    }
  }

  /** The marked images by repository, in the order they were listed. */
  method GroupLines(held: seq<Image>) returns (lines: map<string, seq<Image>>)
    ensures forall r :: if r in lines then lines[r] == VersionsOf(held, r) != [] else VersionsOf(held, r) == []
  {
    lines := map[];
    for i := 0 to |held|
      invariant forall r :: if r in lines then lines[r] == VersionsOf(held[..i], r) != [] else VersionsOf(held[..i], r) == []
    {
      assert held[..i + 1][..i] == held[..i];
      var repo := MarkedRepository(held[i].tags);
      if repo.None? { continue; }
      var before := if repo.value in lines then lines[repo.value] else [];
      lines := lines[repo.value := before + [held[i]]];
    }
    assert held[..|held|] == held;
  }

  // The whole policy ----------------------------------------------------------------------------

  ghost predicate InOneOf(image: Image, repos: seq<string>) {
    exists r :: r in repos && InLine(image, r)
  }

  ghost function MarkedIn(images: set<Image>, repos: seq<string>): set<Image> {
    set x | x in images && InOneOf(x, repos)
  }

  /** What goes of one line is what goes of the machine in that line. */
  lemma LineGoes(held: seq<Image>, holders: Holders, keep: int, repo: string, x: Image)
    requires DifferentDigests(held)
    ensures var images := Members(held);
            var floor := if Named(images, holders, repo) then keep else 0;
            x in VersionsOf(held, repo) && Falls(x, Members(VersionsOf(held, repo)), holders, floor) <==>
              InLine(x, repo) && Goes(images, holders, keep, x)
  {
    hide Named, Held, Ahead;
    var images, versions := Members(held), VersionsOf(held, repo);
    VersionsAre(held, repo);
    if x in versions {
      assert AheadOf(Members(versions), x) == NewerVersions(images, x);
    }
  }

  lemma {:induction false} SizeOfDifferent(s: seq<Image>)
    requires DifferentDigests(s)
    ensures |Members(s)| == |s|
  {
    if s == [] {
    } else {
      var front, last := s[..|s| - 1], s[|s| - 1];
      SizeOfDifferent(front);
      assert s == front + [last];
      assert Members(s) == Members(front) + {last};
      assert last !in front;
    }
  }

  /** One repository more: its images come after all of the earlier ones. */
  lemma LineFollows(gone: seq<Image>, line: seq<Image>, repos: seq<string>, repo: string)
    requires Strict(gone, ListedBefore) && Strict(line, Ahead)
    requires forall x :: x in gone ==> InOneOf(x, repos)
    requires forall x :: x in line ==> InLine(x, repo)
    requires forall r :: r in repos ==> Before(r, repo)
    ensures Strict(gone + line, ListedBefore)
  {
    hide Ahead;
    forall x, y | x in gone && y in line ensures ListedBefore(x, y) {
      var r :| r in repos && InLine(x, r);
      BeforeIsAsymmetric(r, repo);
    }
    forall i, j | 0 <= i < j < |gone + line| ensures ListedBefore((gone + line)[i], (gone + line)[j]) {
      if j < |gone| {
        assert ListedBefore(gone[i], gone[j]);
      } else if i < |gone| {
        assert gone[i] in gone && line[j - |gone|] in line;
      } else {
        assert Ahead(line[i - |gone|], line[j - |gone|]);
        assert line[i - |gone|] in line && line[j - |gone|] in line;
      }
    }
  }

  lemma ChangesJoin(a: seq<Image>, b: seq<Image>)
    ensures Changes(a + b) == Changes(a) + Changes(b)
  {
  }

  lemma OneRepoMore(images: set<Image>, repos: seq<string>, repo: string)
    requires repo !in repos
    ensures forall x :: InOneOf(x, repos + [repo]) <==> InOneOf(x, repos) || InLine(x, repo)
    ensures |MarkedIn(images, repos + [repo])| == |MarkedIn(images, repos)| + |Line(images, repo)|
  {
    forall x ensures InOneOf(x, repos + [repo]) <==> InOneOf(x, repos) || InLine(x, repo) {
      if InOneOf(x, repos) {
        var r :| r in repos && InLine(x, r);
        assert r in repos + [repo];
      }
      assert repo in repos + [repo];
    }
    assert MarkedIn(images, repos + [repo]) == MarkedIn(images, repos) + Line(images, repo);
    assert MarkedIn(images, repos) !! Line(images, repo);
  }

  /** The whole policy: what goes, in the order of the answer, and how many marked images stay. */
  method ImagesToPrune(held: seq<Image>, holders: Holders, keep: int)
    returns (remove: seq<ImageChange>, kept: nat, ghost gone: seq<Image>)
    requires DifferentDigests(held)
    ensures IsPrune(Members(held), holders, keep, gone) && remove == Changes(gone)
    ensures kept + |remove| == |set x | x in held && MarkedRepository(x.tags).Some?|
  {
    hide Goes, Held, Ahead, ListedBefore, Named, Changes, Falls, VersionsOf, DifferentDigests, InOneOf, InLine, MarkedIn, Line, Before;
    var lines := GroupLines(held);
    var named := NamedRepositories(held, holders);
    var repos := SortNames(lines.Keys);
    ghost var images := Members(held);
    remove, kept, gone := [], 0, [];
    NoChange();
    NothingMarked(images);
    for i := 0 to |repos|
      invariant remove == Changes(gone) && Strict(gone, ListedBefore)
      invariant forall x :: x in gone <==> InOneOf(x, repos[..i]) && Goes(images, holders, keep, x)
      invariant kept + |gone| == |MarkedIn(images, repos[..i])|
    {
      var repo := repos[i];
      var floor := if repo in named then keep else 0;
      LineIs(held, repo);
      var some, stay;
      ghost var goneHere;
      some, stay, goneHere := PruneLine(lines[repo], repo, holders, floor);
      forall x ensures x in goneHere <==> InLine(x, repo) && Goes(images, holders, keep, x) {
        LineGoes(held, holders, keep, repo, x);
      }
      Earlier(repos, i);
      LineFollows(gone, goneHere, repos[..i], repo);
      ChangesJoin(gone, goneHere);
      assert repos[..i + 1] == repos[..i] + [repo];
      OneRepoMore(images, repos[..i], repo);
      remove, kept, gone := remove + some, kept + stay, gone + goneHere;
    }
    assert repos[..|repos|] == repos;
    AllLinesSeen(held, holders, keep, repos);
    OneChangeEach(gone);
  }

  lemma OneChangeEach(gone: seq<Image>)
    ensures |Changes(gone)| == |gone|
  {
  }

  lemma NothingMarked(images: set<Image>)
    ensures (forall x :: !InOneOf(x, [])) && MarkedIn(images, []) == {}
  {
  }

  lemma LineIs(held: seq<Image>, repo: string)
    requires DifferentDigests(held)
    ensures var versions := VersionsOf(held, repo);
            && DifferentDigests(versions) && (forall x :: x in versions ==> InLine(x, repo))
            && |versions| == |Line(Members(held), repo)|
  {
    hide InLine;
    var versions := VersionsOf(held, repo);
    VersionsAre(held, repo);
    SizeOfDifferent(versions);
    assert Members(versions) == Line(Members(held), repo);
  }

  lemma Earlier(repos: seq<string>, i: nat)
    requires Ascending(repos) && i < |repos|
    ensures repos[i] !in repos[..i] && forall r :: r in repos[..i] ==> Before(r, repos[i])
  {
    hide Before;
    forall r | r in repos[..i] ensures Before(r, repos[i]) && r != repos[i] {
      var j :| 0 <= j < i && repos[j] == r;
      assert Before(repos[j], repos[i]);
      BeforeIsAsymmetric(r, repos[i]);
    }
  }

  lemma AllLinesSeen(held: seq<Image>, holders: Holders, keep: int, repos: seq<string>)
    requires DifferentDigests(held) && forall r :: VersionsOf(held, r) != [] ==> r in repos
    ensures forall x :: Goes(Members(held), holders, keep, x) ==> InOneOf(x, repos)
    ensures MarkedIn(Members(held), repos) == set x | x in held && MarkedRepository(x.tags).Some?
  {
    hide Held, Named, FirstMark;
    forall x | x in held && MarkedRepository(x.tags).Some? ensures InOneOf(x, repos) {
      var repo := MarkedRepository(x.tags).value;
      VersionsAre(held, repo);
      assert x in VersionsOf(held, repo);
    }
  }

  const DEFAULT_IMAGE_KEEP: int := 3

  /** How many versions a prune keeps: what was asked for, or the default. */
  function Keep(asked: int): int {
    if asked <= 0 then DEFAULT_IMAGE_KEEP else asked
  }

  /**
    Plans a prune, and acts on the plan only when `allowed`: the images taken away are
    then the planned ones, less those the runtime refused to remove.
  */
  method PruneImages(held: seq<Image>, holders: Holders, asked: int, allowed: bool)
    returns (plan: seq<ImageChange>, ghost gone: seq<Image>, left: seq<string>, failed: nat)
    requires DifferentDigests(held)
    ensures IsPrune(Members(held), holders, Keep(asked), gone) && plan == Changes(gone)
    ensures !allowed ==> left == []
    ensures forall d :: d in left ==> exists x :: x in gone && x.digest == d
    ensures allowed ==> |left| + failed == |gone|
  {
    hide Goes, Held, Ahead, ListedBefore, Named, DifferentDigests;
    var kept;
    plan, kept, gone := ImagesToPrune(held, holders, Keep(asked));
    left, failed := [], 0;
    if !allowed { return; }
    for at := 0 to |plan|
      invariant |left| + failed == at
      invariant forall d :: d in left ==> exists x :: x in gone && x.digest == d
    {
      assert gone[at] in gone && gone[at].digest == plan[at].digest;
      var removed := *;
      if removed { left := left + [plan[at].digest]; } else { failed := failed + 1; }
    }
  }
}
