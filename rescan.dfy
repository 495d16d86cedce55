/** The path handling of `update_nextcloud_files`: the ".." check, the
    leading-"/" strip loop and the `os.path.join` of the rescan path, and the
    fixed command sent to the Nextcloud container. */
module Rescan {
  import opened Failures
  import opened Text

  /** Location of Nextcloud's `occ` tool inside its container. */
  const OccPath: string := "/var/www/html/occ"
  /** The identity `exec_run` runs the command as. */
  const ExecUser: string := "www-data"

  /** `n` slashes. */
  function Slashes(n: nat): (r: string)
    ensures |r| == n && forall i :: 0 <= i < n ==> r[i] == '/'
  {
    if n == 0 then "" else Slashes(n - 1) + "/"
  }

  /** The string left once every leading "/" is removed. */
  function StripSlashes(p: string): string {
    if |p| > 0 && p[0] == '/' then StripSlashes(p[1..]) else p
  }

  /** The strip leaves no leading "/" and removes nothing but leading slashes. */
  lemma {:induction false} StripSlashesSpec(p: string)
    ensures !StartsWith(StripSlashes(p), "/")
    ensures |StripSlashes(p)| <= |p|
    ensures p == Slashes(|p| - |StripSlashes(p)|) + StripSlashes(p)
  {
    if |p| > 0 && p[0] == '/' {
      StripSlashesSpec(p[1..]);
      var q := StripSlashes(p[1..]);
      var n := |p[1..]| - |q|;
      assert p == "/" + p[1..];
      assert Slashes(n + 1) == "/" + Slashes(n) by { SlashesCons(n); }
    } else {
      assert Slashes(0) == "";
    }
  }

  /** A run of `n + 1` slashes is a slash followed by a run of `n`. */
  lemma {:induction false} SlashesCons(n: nat)
    ensures Slashes(n + 1) == "/" + Slashes(n)
  {
    if n > 0 { SlashesCons(n - 1); }
  }

  /** Stripping an already stripped path changes nothing. */
  lemma StripSlashesIdempotent(p: string)
    ensures StripSlashes(StripSlashes(p)) == StripSlashes(p)
  {
    StripSlashesSpec(p);
    var q := StripSlashes(p);
    assert !(|q| > 0 && q[0] == '/') by { assert !StartsWith(q, "/"); }
  }

  /** The loop `while p.startswith("/"): p = p[1:]`. */
  method StripLeadingSlashes(p: string) returns (q: string)
    ensures q == StripSlashes(p)
    ensures !StartsWith(q, "/")
    ensures |q| <= |p|
    ensures p == Slashes(|p| - |q|) + q
  {
    q := p;
    while StartsWith(q, "/")
      invariant StripSlashes(q) == StripSlashes(p)
      invariant |q| <= |p| && p == Slashes(|p| - |q|) + q
      decreases |q|
    {
      assert q == "/" + q[1..];
      SlashesCons(|p| - |q|);
      q := q[1..];
    }
    StripSlashesSpec(p);
  }

  /** `posixpath.join(a, b)`: an absolute `b` replaces `a`; otherwise `b` is
      appended, with a "/" between unless `a` is empty or already ends in "/". */
  function Join(a: string, b: string): string {
    if StartsWith(b, "/") then b
    else if a == "" || EndsWith(a, "/") then a + b
    else a + "/" + b
  }

  /** The directory `os.path.join(user, "files")`. */
  function FilesDir(user: string): (d: string)
    ensures d == (if user == "" || EndsWith(user, "/") then user else user + "/") + "files"
  {
    assert "files"[0] != '/';
    Join(user, "files")
  }

  /** Sanitise the configured relative path and build the rescan path
      `os.path.join(user, "files", stripped)`. A ".." anywhere rejects it. */
  function RescanPath(user: string, relPath: string): Result<string> {
    if Contains(relPath, "..") then Err(RelativePath)
    else Ok(Join(Join(user, "files"), StripSlashes(relPath)))
  }

  /** The first half of `update_nextcloud_files`, as the statements run:
      the ".." test, the strip loop, then the join. */
  method SanitizePath(user: string, relPath: string) returns (r: Result<string>)
    ensures r == RescanPath(user, relPath)
    ensures r.Ok? ==> !StartsWith(r.value, "/") || StartsWith(user, "/")
  {
    if Contains(relPath, "..") {
      return Err(RelativePath);
    }
    var stripped := StripLeadingSlashes(relPath);
    r := Ok(Join(Join(user, "files"), stripped));
  }

  /** An accepted path always lands under the user's `files` directory:
      the stripped relative path is appended after one "/" and cannot
      replace the directory, and it carries no "..". */
  lemma RescanPathUnderFiles(user: string, relPath: string)
    requires !Contains(relPath, "..")
    ensures RescanPath(user, relPath) == Ok(FilesDir(user) + "/" + StripSlashes(relPath))
    ensures !Contains(StripSlashes(relPath), "..")
  {
    StripSlashesSpec(relPath);
    var q := StripSlashes(relPath);
    var d := FilesDir(user);
    assert d[|d| - 1] == 's';
    assert !EndsWith(d, "/");
    if Contains(q, "..") {
      var i :| 0 <= i <= |q| - 2 && OccursAt(q, "..", i);
      var n := |relPath| - |q|;
      assert relPath[n + i..n + i + 2] == q[i..i + 2];
      OccursAtContains(relPath, "..", n + i);
    }
  }

  /** "a..b" is refused even though it has no ".." segment. */
  lemma RescanPathRejectsInnerDots(user: string)
    ensures RescanPath(user, "a..b") == Err(RelativePath)
  {
    assert OccursAt("a..b", "..", 1);
  }

  /** `[occ_path, "files:scan", "--path", rescan_path]`. */
  function Command(path: string): seq<string> {
    [OccPath, "files:scan", "--path", path]
  }

  /** What the Docker side answers: `containers.get` raising NotFound, returning
      something that is not a Container, or a container whose `exec_run`
      exits with `exitCode`. */
  datatype Lookup = NotFound | NotAContainer | Found(exitCode: int)
}
