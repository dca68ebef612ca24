// Paths and the shell command of one deck's build (scripts/build-all.js
// lines 6-7, 18 and 26). Paths are strings joined with `/`; `root` is the
// repository root (`path.join(__dirname, '..')`), an absolute path.

module BuildCommands {
  import opened Options

  /** `path.join(__dirname, '..', 'presentations')`. */
  function PresentationsDir(root: string): string
  {
    root + "/presentations"
  }

  /** `path.join(__dirname, '..', 'dist')`. */
  function DistDir(root: string): string
  {
    root + "/dist"
  }

  /** `path.join(presentationsDir, presentation)` for a directory entry. */
  function PresentationPath(root: string, name: string): string
  {
    PresentationsDir(root) + "/" + name
  }

  /** The `--base` option's value: the deck is served under `/slidev/<name>/`. */
  function BaseOption(name: string): string
  {
    "/slidev/" + name + "/"
  }

  /** The `--out` option's value, relative to the deck's own directory. */
  function OutOption(name: string): string
  {
    "../../dist/" + name
  }

  /** The command handed to the shell for deck `name`. */
  function BuildCommand(root: string, name: string): string
  {
    "cd \"" + PresentationPath(root, name) + "\" && npx slidev build --base " + BaseOption(name)
      + " --out " + OutOption(name)
  }

  // ---------------------------------------------------------------------
  // Reading the command back by the template's own shape. The reader strips
  // the template's fixed text and splits at the first `"` and the first
  // space; it does no quoting, expansion or `;`/`&&` handling of its own, so
  // it agrees with `sh` only on commands whose words need none of that
  // (names satisfying `IsPlainName`, roots satisfying `IsQuotable`).
  // ---------------------------------------------------------------------

  /** What one build invocation does: the working directory it changes to,
      and the values of the `--base` and `--out` options. */
  datatype Invocation = Invocation(cwd: string, base: string, out: string)

  /** A character the shell takes literally outside quotes. */
  predicate IsPlainChar(c: char) {
    'a' <= c <= 'z' || 'A' <= c <= 'Z' || '0' <= c <= '9' || c == '_' || c == '-' || c == '.'
  }

  /** A deck name that the shell passes through unchanged and unsplit. */
  predicate IsPlainName(name: string) {
    forall i :: 0 <= i < |name| ==> IsPlainChar(name[i])
  }

  /** A path that keeps its meaning inside double quotes. */
  predicate IsQuotable(path: string) {
    forall i :: 0 <= i < |path| ==> path[i] !in "\"\\$`"
  }

  /** The text of `s` before the first `c`, and the text after it; None when
      `s` holds no `c`. */
  function SplitAt(s: string, c: char): (r: Option<(string, string)>)
    ensures r.Some? ==> s == r.value.0 + [c] + r.value.1 && c !in r.value.0
    ensures r.None? ==> c !in s
  {
    if s == [] then None
    else if s[0] == c then Some(([], s[1..]))
    else
      match SplitAt(s[1..], c)
      case None => None
      case Some((before, after)) => Some(([s[0]] + before, after))
  }

  /** `s` without its leading `prefix`; None when `s` does not start with it. */
  function DropPrefix(prefix: string, s: string): (r: Option<string>)
    ensures r.Some? <==> prefix <= s
    ensures r.Some? ==> s == prefix + r.value
  {
    if prefix <= s then Some(s[|prefix|..]) else None
  }

  /** Reads a command of the shape `BuildCommand` produces: the quoted
      directory, then the `--base` word, then the `--out` word. */
  function ParseBuildCommand(cmd: string): Option<Invocation>
  {
    match DropPrefix("cd \"", cmd)
    case None => None
    case Some(s1) =>
      match SplitAt(s1, '"')
      case None => None
      case Some((cwd, s2)) => ParseOptions(cwd, s2)
  }

  /** Reads what follows the quoted directory `cwd`: the `--base` word, then
      the `--out` word. */
  function ParseOptions(cwd: string, s2: string): Option<Invocation>
  {
    match DropPrefix(" && npx slidev build --base ", s2)
    case None => None
    case Some(s3) =>
      match SplitAt(s3, ' ')
      case None => None
      case Some((base, s4)) =>
        match DropPrefix("--out ", s4)
        case None => None
        case Some(out) => if ' ' in out then None else Some(Invocation(cwd, base, out))
  }

  lemma {:induction false} SplitAtFirst(x: string, c: char, y: string)
    requires c !in x
    ensures SplitAt(x + [c] + y, c) == Some((x, y))
  {
    if x == [] {
      assert x + [c] + y == [c] + y;
    } else {
      assert x[0] != c;
      assert (x + [c] + y)[0] == x[0];
      assert (x + [c] + y)[1..] == x[1..] + [c] + y;
      SplitAtFirst(x[1..], c, y);
      assert [x[0]] + x[1..] == x;
    }
  }

  /** Any command of the template's shape reads back into its three parts. */
  lemma ParseTemplate(cwd: string, base: string, out: string)
    requires '"' !in cwd && ' ' !in base && ' ' !in out
    ensures ParseBuildCommand("cd \"" + cwd + "\" && npx slidev build --base " + base + " --out " + out)
         == Some(Invocation(cwd, base, out))
  {
    var s2 := " && npx slidev build --base " + (base + [' '] + ("--out " + out));
    var cmd := "cd \"" + cwd + "\" && npx slidev build --base " + base + " --out " + out;
    assert cmd == "cd \"" + (cwd + ['"'] + s2);
    assert DropPrefix("cd \"", cmd) == Some(cwd + ['"'] + s2);
    SplitAtFirst(cwd, '"', s2);
    ParseOptionsOf(cwd, base, out);
  }

  lemma ParseOptionsOf(cwd: string, base: string, out: string)
    requires ' ' !in base && ' ' !in out
    ensures ParseOptions(cwd, " && npx slidev build --base " + (base + [' '] + ("--out " + out)))
         == Some(Invocation(cwd, base, out))
  {
    var s4 := "--out " + out;
    SplitAtFirst(base, ' ', s4);
    assert DropPrefix("--out ", s4) == Some(out);
  }

  lemma PlainNameInPath(root: string, name: string)
    requires IsQuotable(root) && IsPlainName(name)
    ensures '"' !in PresentationPath(root, name)
  {
    var cwd := PresentationPath(root, name);
    forall i | 0 <= i < |cwd| ensures cwd[i] != '"' {
      if i < |root| {
        assert cwd[i] == root[i];
      } else if i >= |root| + |"/presentations/"| {
        assert cwd[i] == name[i - |root| - |"/presentations/"|];
      }
    }
  }

  lemma PlainNameInOptions(name: string)
    requires IsPlainName(name)
    ensures ' ' !in BaseOption(name) && ' ' !in OutOption(name)
  {
    var base, out := BaseOption(name), OutOption(name);
    forall i | 0 <= i < |base| ensures base[i] != ' ' {
      if 8 <= i < 8 + |name| {
        assert base[i] == name[i - 8];
      }
    }
    forall i | 0 <= i < |out| ensures out[i] != ' ' {
      if i >= 11 {
        assert out[i] == name[i - 11];
      }
    }
  }

  /** Round trip: the template reader gets back from the command exactly the
      deck's directory, the base `/slidev/<name>/` and the output
      `../../dist/<name>`, provided the name and the path need no quoting. */
  lemma BuildCommandRoundTrip(root: string, name: string)
    requires IsQuotable(root) && IsPlainName(name)
    ensures ParseBuildCommand(BuildCommand(root, name))
         == Some(Invocation(PresentationPath(root, name), BaseOption(name), OutOption(name)))
  {
    PlainNameInPath(root, name);
    PlainNameInOptions(name);
    ParseTemplate(PresentationPath(root, name), BaseOption(name), OutOption(name));
  }

  // ---------------------------------------------------------------------
  // Where the output lands: `--out` resolved against the working directory.
  // ---------------------------------------------------------------------

  /** The `/`-separated parts of a path (`"/a/b"` gives `["", "a", "b"]`). */
  function Segments(path: string): (r: seq<string>)
    ensures |r| >= 1
  {
    if path == [] then [""]
    else
      var rest := Segments(path[1..]);
      if path[0] == '/' then [""] + rest else [[path[0]] + rest[0]] + rest[1..]
  }

  /** Resolves the relative path `rel` against the directory `base`
      textually, on the path's segments alone (symbolic links are not
      followed): empty parts and `.` stay, `..` goes up one level but never
      above the first part. */
  function Resolve(base: seq<string>, rel: seq<string>): (r: seq<string>)
    requires |base| >= 1
    ensures |r| >= 1
    decreases |rel|
  {
    if rel == [] then base
    else if rel[0] == "" || rel[0] == "." then Resolve(base, rel[1..])
    else if rel[0] == ".." then Resolve(if |base| > 1 then base[..|base| - 1] else base, rel[1..])
    else Resolve(base + [rel[0]], rel[1..])
  }

  lemma {:induction false} SegmentsJoin(a: string, b: string)
    ensures Segments(a + "/" + b) == Segments(a) + Segments(b)
  {
    if a == [] {
      assert a + "/" + b == "/" + b;
      assert ("/" + b)[1..] == b;
    } else {
      assert (a + "/" + b)[1..] == a[1..] + "/" + b;
      SegmentsJoin(a[1..], b);
    }
  }

  lemma {:induction false} SegmentsOfName(name: string)
    requires '/' !in name
    ensures Segments(name) == [name]
  {
    if name != [] {
      SegmentsOfName(name[1..]);
      assert [name[0]] + name[1..] == name;
    }
  }

  lemma DeckDirSegments(root: string, name: string)
    requires '/' !in name
    ensures Segments(PresentationPath(root, name)) == Segments(root) + ["presentations", name]
  {
    assert "/presentations" == "/" + "presentations";
    assert PresentationPath(root, name) == root + "/" + "presentations" + "/" + name;
    SegmentsOfSubdir(root, "presentations", name);
  }

  lemma SegmentsOfSubdir(root: string, dir: string, name: string)
    requires '/' !in dir && '/' !in name
    ensures Segments(root + "/" + dir + "/" + name) == Segments(root) + [dir, name]
  {
    assert root + "/" + dir + "/" + name == root + "/" + (dir + "/" + name);
    SegmentsJoin(root, dir + "/" + name);
    SegmentsJoin(dir, name);
    SegmentsOfName(dir);
    SegmentsOfName(name);
  }

  lemma OutSegments(name: string)
    requires '/' !in name
    ensures Segments(OutOption(name)) == ["..", "..", "dist", name]
  {
    SegmentsOfName(name);
    SegmentsOfName("..");
    SegmentsOfName("dist");
    assert OutOption(name) == ".." + "/" + (".." + "/" + ("dist" + "/" + name));
    SegmentsJoin("..", ".." + "/" + ("dist" + "/" + name));
    SegmentsJoin("..", "dist" + "/" + name);
    SegmentsJoin("dist", name);
  }

  /** The output of deck `name`, resolved from the deck's directory (where
      the command's `cd` leads), is `<root>/dist/<name>`. */
  lemma OutputLandsInDist(root: string, name: string)
    requires '/' !in name && name != "" && name != "." && name != ".."
    ensures Resolve(Segments(PresentationPath(root, name)), Segments(OutOption(name)))
         == Segments(DistDir(root)) + [name]
  {
    DeckDirSegments(root, name);
    OutSegments(name);
    assert DistDir(root) == root + "/" + "dist";
    SegmentsJoin(root, "dist");
    SegmentsOfName("dist");
    UpTwoThenDown(Segments(root), name);
  }

  /** From `<r>/presentations/<name>`, `../../dist/<name>` leads to `<r>/dist/<name>`. */
  lemma UpTwoThenDown(r: seq<string>, name: string)
    requires |r| >= 1 && name != "" && name != "." && name != ".."
    ensures Resolve(r + ["presentations", name], ["..", "..", "dist", name]) == r + ["dist", name]
  {
    var toDist := ["dist"] + ([name] + []);
    FourSegments("..", "..", "dist", name);
    UpFromDeck(r, name, toDist);
    DownToDist(r, name);
  }

  lemma FourSegments(a: string, b: string, c: string, d: string)
    ensures [a, b, c, d] == [a] + ([b] + ([c] + ([d] + [])))
  {
  }

  lemma UpFromDeck(r: seq<string>, name: string, rest: seq<string>)
    requires |r| >= 1
    ensures Resolve(r + ["presentations", name], [".."] + ([".."] + rest)) == Resolve(r, rest)
  {
    var deckDir, parent := r + ["presentations", name], r + ["presentations"];
    assert deckDir[..|deckDir| - 1] == parent;
    assert parent[..|parent| - 1] == r;
    ResolveUp(deckDir, [".."] + rest);
    ResolveUp(parent, rest);
  }

  lemma DownToDist(r: seq<string>, name: string)
    requires |r| >= 1 && name != "" && name != "." && name != ".."
    ensures Resolve(r, ["dist"] + ([name] + [])) == r + ["dist", name]
  {
    ResolveDown(r, "dist", [name] + []);
    ResolveDown(r + ["dist"], name, []);
    assert r + ["dist"] + [name] == r + ["dist", name];
  }

  lemma ResolveUp(base: seq<string>, rest: seq<string>)
    requires |base| > 1
    ensures Resolve(base, [".."] + rest) == Resolve(base[..|base| - 1], rest)
  {
    assert ([".."] + rest)[1..] == rest;
  }

  lemma ResolveDown(base: seq<string>, segment: string, rest: seq<string>)
    requires |base| >= 1 && segment != "" && segment != "." && segment != ".."
    ensures Resolve(base, [segment] + rest) == Resolve(base + [segment], rest)
  {
    assert ([segment] + rest)[1..] == rest;
  }

  /** The base option is the absolute URL path `/slidev/<name>/`. */
  lemma BaseIsUnderSlidev(name: string)
    requires '/' !in name
    ensures Segments(BaseOption(name)) == ["", "slidev", name, ""]
  {
    SegmentsOfName(name);
    assert BaseOption(name) == "" + "/" + ("slidev" + "/" + (name + "/" + ""));
    SegmentsJoin("", "slidev" + "/" + (name + "/" + ""));
    SegmentsJoin("slidev", name + "/" + "");
    SegmentsJoin(name, "");
    SegmentsOfName("slidev");
  }
}
