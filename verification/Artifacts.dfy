/**
  The files beside a declaration (service/tree.go, api/declaration.go): the stream that is
  hashed to tell that they changed, and the directory that is made to hold what was sent.
  A character stands for a byte, as in Go's strings; the hash and base64 are parameters.
*/
module Artifacts {
  import opened Options
  import opened Ordering
  import Wire

  // The hashed stream ----------------------------------------------------------------------

  function Text(bytes: seq<Wire.Byte>): string {
    seq(|bytes|, i requires 0 <= i < |bytes| => bytes[i] as char)
  }

  /** A file's name, its length and its content. */
  function Entry(name: string, content: string): string {
    name + "\n" + Text(Wire.Decimal(|content|)) + "\n" + content
  }

  ghost predicate Covers(files: map<string, string>, names: seq<string>) {
    forall n :: n in names ==> n in files
  }

  function StreamOf(names: seq<string>, files: map<string, string>): string
    requires forall n :: n in names ==> n in files
  {
    if names == [] then "" else StreamOf(names[..|names| - 1], files) + Entry(names[|names| - 1], files[names[|names| - 1]])
  }

  /** The names of the files, once each, in order. */
  ghost predicate Lists(names: seq<string>, files: map<string, string>) {
    Ascending(names) && forall n :: n in names <==> n in files
  }

  /** No files, no digest; otherwise the hash of the stream. */
  ghost predicate IsDigest(hash: string -> string, files: map<string, string>, digest: string) {
    if files == map[] then digest == ""
    else exists names :: Lists(names, files) && digest == hash(StreamOf(names, files))
  }

  datatype Node = File(content: string) | EmptyDir | FullDir

  type Directory = map<string, Node>

  function FilesOf(dir: Directory): map<string, string> {
    map n | n in dir && dir[n].File? :: dir[n].content
  }

  lemma StreamBegins(names: seq<string>, files: map<string, string>)
    ensures Covers(files, names[..0]) && StreamOf(names[..0], files) == ""
  {
  }

  lemma StreamGrows(names: seq<string>, files: map<string, string>, i: nat)
    requires i < |names| && names[i] in files && Covers(files, names[..i])
    ensures Covers(files, names[..i + 1]) && StreamOf(names[..i + 1], files) == StreamOf(names[..i], files) + Entry(names[i], files[names[i]])
  {
    assert names[..i + 1][..i] == names[..i];
  }

  /** Over the plain files only; the first that cannot be read ends it. */
  method HashArtifacts(dir: Option<Directory>, hash: string -> string) returns (ok: bool, digest: string)
    ensures ok ==> IsDigest(hash, if dir.None? then map[] else FilesOf(dir.value), digest)
    ensures dir.None? ==> ok
  {
    hide Entry, Ascending, StreamOf, Covers;
    if dir.None? { return true, ""; }
    var files := FilesOf(dir.value);
    var found := set n | n in dir.value && dir.value[n].File?;
    assert found == files.Keys;
    if found == {} { return true, ""; }
    var names := SortNames(found);
    var stream := "";
    StreamBegins(names, files);
    for i := 0 to |names|
      invariant Covers(files, names[..i]) && stream == StreamOf(names[..i], files)
    {
      ok := *;
      if !ok { return false, ""; }
      var content := files[names[i]];
      StreamGrows(names, files, i);
      stream := stream + Entry(names[i], content);
    }
    assert names[..|names|] == names;
    assert Lists(names, files);
    return true, hash(stream);
  }

  predicate Plain(s: string) {
    '\n' !in s
  }

  function BreakAt(s: string): nat {
    if s == "" || s[0] == '\n' then 0 else 1 + BreakAt(s[1..])
  }

  lemma {:induction false} BreakIsAt(a: string, x: string)
    requires Plain(a)
    ensures BreakAt(a + "\n" + x) == |a|
  {
    if a == "" {
      assert ("" + "\n" + x)[0] == '\n';
    } else {
      assert (a + "\n" + x)[1..] == a[1..] + "\n" + x;
      assert (a + "\n" + x)[0] == a[0] && a[0] in a;
      BreakIsAt(a[1..], x);
    }
  }

  lemma CutAtNewline(a: string, x: string, b: string, y: string)
    requires Plain(a) && Plain(b) && a + "\n" + x == b + "\n" + y
    ensures a == b && x == y
  {
    var s, t := a + "\n" + x, b + "\n" + y;
    BreakIsAt(a, x);
    BreakIsAt(b, y);
    assert a == s[..|a|] && b == t[..|b|];
    assert x == s[|a| + 1..] && y == t[|b| + 1..];
  }

  lemma LengthIsReadable(n: nat)
    ensures Plain(Text(Wire.Decimal(n)))
  {
    Wire.DecimalIsRead(n);
    var d := Wire.Decimal(n);
    forall c | c in Text(d) ensures c != '\n' {
      var i :| 0 <= i < |d| && Text(d)[i] == c;
      assert Wire.IsDigit(d[i]);
    }
  }

  lemma LengthsDiffer(m: nat, n: nat)
    requires Text(Wire.Decimal(m)) == Text(Wire.Decimal(n))
    ensures m == n
  {
    var a, b := Wire.Decimal(m), Wire.Decimal(n);
    assert |a| == |Text(a)| == |Text(b)| == |b|;
    forall i | 0 <= i < |a| ensures a[i] == b[i] {
      assert Text(a)[i] == Text(b)[i];
    }
    Wire.DecimalIsRead(m);
    Wire.DecimalIsRead(n);
  }

  /** Entries in front of anything: the first can be told from what follows. */
  lemma EntryIsCut(m: string, c: string, x: string, n: string, d: string, y: string)
    requires Plain(m) && Plain(n) && Entry(m, c) + x == Entry(n, d) + y
    ensures m == n && c == d && x == y
  {
    var p, q := Text(Wire.Decimal(|c|)), Text(Wire.Decimal(|d|));
    assert Entry(m, c) + x == m + "\n" + (p + "\n" + (c + x));
    assert Entry(n, d) + y == n + "\n" + (q + "\n" + (d + y));
    CutAtNewline(m, p + "\n" + (c + x), n, q + "\n" + (d + y));
    LengthIsReadable(|c|);
    LengthIsReadable(|d|);
    CutAtNewline(p, c + x, q, d + y);
    LengthsDiffer(|c|, |d|);
    assert c == (c + x)[..|c|] && d == (d + y)[..|d|];
    assert x == (c + x)[|c|..] && y == (d + y)[|d|..];
  }

  lemma Joins(a: string, b: string, c: string)
    ensures a + b + c == a + (b + c)
  {
  }

  lemma {:induction false} StreamUnrolls(names: seq<string>, files: map<string, string>)
    requires Covers(files, names) && names != []
    ensures Covers(files, names[1..]) && StreamOf(names, files) == Entry(names[0], files[names[0]]) + StreamOf(names[1..], files)
  {
    hide Entry;
    var last := |names| - 1;
    if last == 0 {
      assert names[..0] == [] && names[1..] == [];
    } else {
      var front := names[..last];
      assert Covers(files, front);
      StreamUnrolls(front, files);
      assert front[1..] == names[1..][..last - 1];
      assert names[1..][last - 1] == names[last];
      assert StreamOf(names[1..], files) == StreamOf(front[1..], files) + Entry(names[last], files[names[last]]);
      Joins(Entry(names[0], files[names[0]]), StreamOf(front[1..], files), Entry(names[last], files[names[last]]));
    }
  }

  /** The stream determines the names, their order and every content. */
  lemma {:induction false} StreamTells(a: seq<string>, f: map<string, string>, b: seq<string>, g: map<string, string>)
    requires Covers(f, a) && Covers(g, b) && StreamOf(a, f) == StreamOf(b, g)
    requires forall n :: n in a || n in b ==> Plain(n)
    ensures a == b && forall n :: n in a ==> f[n] == g[n]
    decreases |a|
  {
    hide Entry;
    if a != [] { StreamUnrolls(a, f); EntryIsSomething(a[0], f[a[0]]); }
    if b != [] { StreamUnrolls(b, g); EntryIsSomething(b[0], g[b[0]]); }
    if a == [] || b == [] {
    } else {
      EntryIsCut(a[0], f[a[0]], StreamOf(a[1..], f), b[0], g[b[0]], StreamOf(b[1..], g));
      StreamTells(a[1..], f, b[1..], g);
      assert a == [a[0]] + a[1..] && b == [b[0]] + b[1..];
    }
  }

  lemma EntryIsSomething(name: string, content: string)
    ensures |Entry(name, content)| > 0
  {
  }

  /**
    With a hash that tells streams apart, two directories have the same digest exactly when
    they hold the same files with the same contents: any edit, rename, addition or removal
    shows. The names must not contain a line break.
  */
  lemma DigestTellsFiles(hash: string -> string, f: map<string, string>, g: map<string, string>, d: string, e: string)
    requires forall s, t :: hash(s) == hash(t) ==> s == t
    requires forall s :: hash(s) != ""
    requires forall n :: n in f || n in g ==> Plain(n)
    requires IsDigest(hash, f, d) && IsDigest(hash, g, e)
    ensures d == e <==> f == g
  {
    if f != map[] && g != map[] {
      var a :| Lists(a, f) && d == hash(StreamOf(a, f));
      var b :| Lists(b, g) && e == hash(StreamOf(b, g));
      if d == e {
        StreamTells(a, f, b, g);
        assert f.Keys == g.Keys;
      }
      if f == g { AscendingIsUnique(a, b); }
    }
  }

  /** A line break in a name is enough to hide a change: one file can read as two. */
  lemma LineBreakHidesAChange()
    ensures StreamOf(["a\n0\nb"], map["a\n0\nb" := ""]) == StreamOf(["a", "b"], map["a" := "", "b" := ""])
    ensures PlainFileName("a\n0\nb")
  {
    var zero := Text(Wire.Decimal(0));
    assert zero == "0";
    var f, g := map["a\n0\nb" := ""], map["a" := "", "b" := ""];
    StreamUnrolls(["a\n0\nb"], f);
    StreamUnrolls(["a", "b"], g);
    assert ["a", "b"][1..] == ["b"] && ["a\n0\nb"][1..] == [];
    StreamUnrolls(["b"], g);
    assert ["b"][1..] == [];
    assert Entry("a\n0\nb", "") == "a\n0\nb\n0\n";
    assert Entry("a", "") == "a\n0\n" && Entry("b", "") == "b\n0\n";
    PlainNames("a\n0\nb");
  }

  // Names ------------------------------------------------------------------------------------

  function WithoutSlashes(path: string): string {
    if path != "" && path[|path| - 1] == '/' then WithoutSlashes(path[..|path| - 1]) else path
  }

  function AfterSlash(path: string): string {
    if path == "" || path[|path| - 1] == '/' then "" else AfterSlash(path[..|path| - 1]) + [path[|path| - 1]]
  }

  /** The last element of a path. */
  function Base(path: string): string {
    if path == "" then "."
    else
      var last := AfterSlash(WithoutSlashes(path));
      if last == "" then "/" else last
  }

  predicate PlainFileName(name: string) {
    name != "" && name != "." && name != ".." && name == Base(name)
  }

  lemma {:induction false} AfterSlashIs(path: string)
    ensures '/' !in AfterSlash(path)
    ensures '/' !in path ==> AfterSlash(path) == path
  {
    if path == "" {
    } else {
      var front, last := path[..|path| - 1], path[|path| - 1];
      AfterSlashIs(front);
      assert path == front + [last];
    }
  }

  /** A plain name has no slash in it, with one exception: the slash itself. */
  lemma PlainNames(name: string)
    ensures PlainFileName(name) <==> name == "/" || (name != "" && name != "." && name != ".." && '/' !in name)
  {
    AfterSlashIs(WithoutSlashes(name));
    if name == "/" {
      assert name[..0] == "" && WithoutSlashes(name) == WithoutSlashes(name[..0]);
    } else if name != "" && '/' !in name {
      assert name[|name| - 1] in name;
      AfterSlashIs(name);
    }
  }

  // The directory -----------------------------------------------------------------------------

  datatype Artifact = Artifact(name: string, encoded: string)

  type Decoder = string -> Option<string>

  /** Everything sent is a file name and decodes. */
  predicate AllReadable(sent: seq<Artifact>, decode: Decoder) {
    forall i :: 0 <= i < |sent| ==> PlainFileName(sent[i].name) && decode(sent[i].encoded).Some?
  }

  /** What was sent, by name; of two of one name the later stands. */
  function Sent(sent: seq<Artifact>, decode: Decoder): map<string, string>
    requires AllReadable(sent, decode)
  {
    if sent == [] then map[]
    else
      var last := sent[|sent| - 1];
      Sent(sent[..|sent| - 1], decode)[last.name := decode(last.encoded).value]
  }

  function AsFiles(files: map<string, string>): Directory {
    map n | n in files :: File(files[n])
  }

  predicate IsSent(sent: seq<Artifact>, name: string) {
    exists i :: 0 <= i < |sent| && sent[i].name == name
  }

  lemma IsSentLast(sent: seq<Artifact>, name: string)
    requires sent != []
    ensures IsSent(sent, name) <==> IsSent(sent[..|sent| - 1], name) || name == sent[|sent| - 1].name
  {
    var front := sent[..|sent| - 1];
    if IsSent(front, name) {
      var i :| 0 <= i < |front| && front[i].name == name;
      assert sent[i].name == name;
    }
    if IsSent(sent, name) {
      var i :| 0 <= i < |sent| && sent[i].name == name;
      assert i < |front| ==> front[i].name == name;
    }
  }

  lemma {:induction false} SentNames(sent: seq<Artifact>, decode: Decoder)
    requires AllReadable(sent, decode)
    ensures forall n :: n in Sent(sent, decode) <==> IsSent(sent, n)
  {
    hide IsSent;
    if sent == [] {
      NothingSent();
    } else {
      SentNames(sent[..|sent| - 1], decode);
      forall n { IsSentLast(sent, n); }
    }
  }

  lemma NothingSent()
    ensures forall n :: !IsSent([], n)
  {
  }

  /** A file can be renamed over this name: it is not a directory, and not the directory itself. */
  predicate Target(dir: Directory, name: string) {
    name != "/" && (name in dir ==> dir[name].File?)
  }

  predicate Writable(dir: Directory, sent: seq<Artifact>, decode: Decoder) {
    AllReadable(sent, decode) && forall i :: 0 <= i < |sent| ==> Target(dir, sent[i].name)
  }

  /**
    What a declaration needs to land, besides a disk that works: everything sent is a file
    name that can be written where it goes, and decodes, and nothing that has to go is a
    directory with something in it.
  */
  predicate CanLand(dir: Directory, sent: seq<Artifact>, decode: Decoder) {
    Writable(dir, sent, decode) && forall n :: n in dir && dir[n].FullDir? ==> IsSent(sent, n)
  }

  /** A node that was there before, or one that was sent. */
  ghost predicate FromEither(dir: Directory, sent: seq<Artifact>, decode: Decoder, name: string, node: Node) {
    || (name in dir && dir[name] == node)
    || (exists i :: 0 <= i < |sent| && sent[i].name == name && decode(sent[i].encoded).Some? && node == File(decode(sent[i].encoded).value))
  }

  /** Nothing in `now` is half of anything: each node was there before or was sent. */
  ghost predicate NothingMadeUp(dir: Directory, sent: seq<Artifact>, decode: Decoder, now: Directory) {
    forall n :: n in now ==> FromEither(dir, sent, decode, n, now[n])
  }

  lemma LastSent(sent: seq<Artifact>, decode: Decoder, i: nat)
    requires 0 < i <= |sent| && AllReadable(sent[..i], decode)
    ensures AllReadable(sent[..i - 1], decode) && decode(sent[i - 1].encoded).Some?
    ensures Sent(sent[..i], decode) == Sent(sent[..i - 1], decode)[sent[i - 1].name := decode(sent[i - 1].encoded).value]
  {
    assert sent[..i][..i - 1] == sent[..i - 1] && sent[..i][i - 1] == sent[i - 1];
  }

  lemma {:induction false} SentIsFromEither(dir: Directory, sent: seq<Artifact>, decode: Decoder, i: nat)
    requires i <= |sent| && AllReadable(sent[..i], decode)
    ensures NothingMadeUp(dir, sent, decode, dir + AsFiles(Sent(sent[..i], decode)))
  {
    hide Sent, AllReadable;
    if i == 0 {
      NothingLands(decode);
      assert sent[..0] == [];
    } else {
      LastSent(sent, decode, i);
      SentIsFromEither(dir, sent, decode, i - 1);
      var before, now := dir + AsFiles(Sent(sent[..i - 1], decode)), dir + AsFiles(Sent(sent[..i], decode));
      forall n | n in now ensures FromEither(dir, sent, decode, n, now[n]) {
        if n != sent[i - 1].name { assert n in before && before[n] == now[n]; }
      }
    }
  }

  lemma LessIsNotMadeUp(dir: Directory, sent: seq<Artifact>, decode: Decoder, now: Directory)
    requires forall n :: n in now ==> n in dir && now[n] == dir[n]
    ensures NothingMadeUp(dir, sent, decode, now)
  {
  }

  lemma NothingLands(decode: Decoder)
    ensures Sent([], decode) == map[]
  {
  }

  /** What one service has on the machine: its declaration and the directory beside it. */
  class Place {
    var source: Option<string>
    var artifacts: Option<Directory>

    constructor (s: Option<string>, a: Option<Directory>)
      ensures source == s && artifacts == a
    {
      source, artifacts := s, a;
    }

    /** Writes beside the name and renames over it: the old content or the new, never half. */
    method WriteFile(name: string, content: string) returns (ok: bool, ghost failed: bool)
      requires artifacts.Some?
      modifies this`artifacts
      ensures artifacts == if ok then Some(old(artifacts).value[name := File(content)]) else old(artifacts)
      ensures ok ==> !failed
      ensures !failed ==> (ok <==> Target(old(artifacts).value, name))
    {
      var works := *;
      failed := !works;
      ok := works && Target(artifacts.value, name);
      if ok { artifacts := Some(artifacts.value[name := File(content)]); }
    }

    /** The files sent, in the order sent, up to the first that is refused. */
    method WriteAll(sent: seq<Artifact>, decode: Decoder) returns (ok: bool, ghost failed: bool, kept: set<string>)
      requires artifacts.Some?
      modifies this`artifacts
      ensures artifacts.Some? && NothingMadeUp(old(artifacts).value, sent, decode, artifacts.value)
      ensures ok ==> !failed && AllReadable(sent, decode) && artifacts.value == old(artifacts).value + AsFiles(Sent(sent, decode))
      ensures ok ==> forall n :: n in kept <==> IsSent(sent, n)
      ensures !failed ==> (ok <==> Writable(old(artifacts).value, sent, decode))
    {
      hide Target, PlainFileName, NothingMadeUp, IsSent, Sent;
      ghost var before := artifacts.value;
      kept, failed := {}, false;
      NothingSent();
      assert Sent([], decode) == map[] by { NothingLands(decode); }
      for i := 0 to |sent|
        invariant artifacts.Some? && !failed && Writable(before, sent[..i], decode)
        invariant artifacts.value == before + AsFiles(Sent(sent[..i], decode))
        invariant forall n :: n in kept <==> IsSent(sent[..i], n)
      {
        var a := sent[i];
        SentIsFromEither(before, sent, decode, i);
        if !PlainFileName(a.name) { return false, failed, kept; }
        var content := decode(a.encoded);
        if content.None? { return false, failed, kept; }
        SentStaysWritable(before, sent[..i], decode, a.name);
        ok, failed := WriteFile(a.name, content.value);
        if !ok { return; }
        OneMoreSent(before, sent, decode, i);
        kept := kept + {a.name};
      }
      assert sent[..|sent|] == sent;
      SentIsFromEither(before, sent, decode, |sent|);
      ok := true;
    }

    /** What was not sent goes. */
    method RemoveStale(kept: set<string>) returns (ok: bool, ghost failed: bool)
      requires artifacts.Some?
      modifies this`artifacts
      ensures artifacts.Some? && (forall n :: n in artifacts.value ==> n in old(artifacts).value && artifacts.value[n] == old(artifacts).value[n])
      ensures ok ==> !failed && artifacts.value == map n | n in old(artifacts).value && n in kept :: old(artifacts).value[n]
      ensures !failed ==> (ok <==> forall n :: n in old(artifacts).value && old(artifacts).value[n].FullDir? ==> n in kept)
    {
      ghost var before := artifacts.value;
      var todo := artifacts.value.Keys;
      failed := false;
      while todo != {}
        invariant todo <= before.Keys && !failed && artifacts.Some?
        invariant artifacts.value == map n | n in before && (n in kept || n in todo) :: before[n]
        invariant forall n :: n in before && before[n].FullDir? ==> n in kept || n in todo
        decreases |todo|
      {
        var n :| n in todo;
        todo := todo - {n};
        if n !in kept {
          var works := *;
          failed := !works;
          if !works || artifacts.value[n].FullDir? { return false, failed; }
          artifacts := Some(artifacts.value - {n});
        }
      }
      ok := true;
    }

    /**
      Lands a declaration. The source is written first, so a refusal for the files beside it
      comes after it; then the files, then what is stale goes.
    */
    method WriteDeclaration(text: string, sent: seq<Artifact>, decode: Decoder) returns (ok: bool, ghost failed: bool)
      modifies this
      ensures ok ==> !failed && source == Some(text)
      ensures ok && sent == [] ==> artifacts == None
      ensures ok && sent != [] ==> AllReadable(sent, decode) && artifacts == Some(AsFiles(Sent(sent, decode)))
      ensures !failed ==> source == Some(text)
      ensures !failed ==> (ok <==> sent == [] || CanLand(if old(artifacts).None? then map[] else old(artifacts).value, sent, decode))
      ensures artifacts.Some? ==>
                NothingMadeUp(if old(artifacts).None? then map[] else old(artifacts).value, sent, decode, artifacts.value)
    {
      hide Target, PlainFileName, FromEither, IsSent, AllReadable;
      ghost var before: Directory := if artifacts.None? then map[] else artifacts.value;
      LessIsNotMadeUp(before, sent, decode, before);
      ok := *;
      failed := !ok;
      if !ok { return; }
      source := Some(text);
      if sent == [] {
        artifacts, ok, failed := RemoveAll(artifacts);
        if artifacts.Some? { LessIsNotMadeUp(before, sent, decode, artifacts.value); }
        return;
      }
      ok := *;
      failed := !ok;
      if !ok { return; }
      if artifacts.None? { artifacts := Some(map[]); }
      var kept;
      ok, failed, kept := WriteAll(sent, decode);
      if !ok { return; }
      SentNames(sent, decode);
      ghost var written := artifacts.value;
      ok, failed := RemoveStale(kept);
      if ok { assert artifacts.value == AsFiles(Sent(sent, decode)); }
      assert forall n :: n in written && written[n].FullDir? <==> n in before && before[n].FullDir? && !IsSent(sent, n);
    }
  }

  /** Removing a directory with all that is in it; when that fails, some of it may be gone. */
  method RemoveAll(dir: Option<Directory>) returns (left: Option<Directory>, ok: bool, ghost failed: bool)
    ensures failed == !ok && (ok ==> left == None)
    ensures left.Some? ==> dir.Some? && forall n :: n in left.value ==> n in dir.value && left.value[n] == dir.value[n]
  {
    ok := *;
    failed := !ok;
    left := if ok then None else dir;
  }

  lemma SentStaysWritable(dir: Directory, sent: seq<Artifact>, decode: Decoder, name: string)
    requires Writable(dir, sent, decode)
    ensures Target(dir + AsFiles(Sent(sent, decode)), name) <==> Target(dir, name)
  {
    hide PlainFileName, Sent;
    SentNames(sent, decode);
    if name in Sent(sent, decode) {
      var i :| 0 <= i < |sent| && sent[i].name == name;
      assert Target(dir, sent[i].name);
    }
  }

  lemma OneMoreReadable(sent: seq<Artifact>, decode: Decoder, i: nat)
    requires i < |sent| && AllReadable(sent[..i], decode)
    requires PlainFileName(sent[i].name) && decode(sent[i].encoded).Some?
    ensures AllReadable(sent[..i + 1], decode)
    ensures Sent(sent[..i + 1], decode) == Sent(sent[..i], decode)[sent[i].name := decode(sent[i].encoded).value]
  {
    hide PlainFileName;
    assert sent[..i + 1][..i] == sent[..i];
    assert forall j :: 0 <= j < i ==> sent[..i + 1][j] == sent[..i][j];
  }

  lemma OneMoreSent(dir: Directory, sent: seq<Artifact>, decode: Decoder, i: nat)
    requires i < |sent| && Writable(dir, sent[..i], decode) && Target(dir, sent[i].name)
    requires PlainFileName(sent[i].name) && decode(sent[i].encoded).Some?
    ensures Writable(dir, sent[..i + 1], decode)
    ensures Sent(sent[..i + 1], decode) == Sent(sent[..i], decode)[sent[i].name := decode(sent[i].encoded).value]
    ensures forall n :: IsSent(sent[..i + 1], n) <==> IsSent(sent[..i], n) || n == sent[i].name
  {
    hide IsSent, PlainFileName, AllReadable, Sent, Target;
    OneMoreReadable(sent, decode, i);
    assert sent[..i + 1][..i] == sent[..i];
    assert forall j :: 0 <= j < i ==> sent[..i + 1][j] == sent[..i][j];
    forall n ensures IsSent(sent[..i + 1], n) <==> IsSent(sent[..i], n) || n == sent[i].name {
      IsSentLast(sent[..i + 1], n);
    }
  }
}
