/**
 * The completion ledger `downloaded.log`: a newline-delimited file of save
 * paths, appended to by `save_downloaded` and read back by `load_downloaded`,
 * which keeps only each line's final component and re-joins it with the
 * current output directory.
 */
module Ledger {
  import opened Paths

  /** The ledger file: absent, or present with its lines (terminators removed). */
  datatype LedgerFile = Missing | Present(lines: seq<string>)

  /** The lines of the file; an absent file has none. */
  function Lines(ledger: LedgerFile): seq<string> {
    if ledger.Missing? then [] else ledger.lines
  }

  /** The membership key `load_downloaded` makes of one non-blank line. */
  function Key(output: string, line: string): string {
    Join(output, Basename(Strip(line)))
  }

  /** The set `load_downloaded(output)` returns: the keys of the non-blank lines. */
  function LoadedKeys(ledger: LedgerFile, output: string): set<string> {
    KeysOf(Lines(ledger), output)
  }

  /** The keys of a sequence of lines, built up line by line as the loading loop does. */
  function KeysOf(lines: seq<string>, output: string): set<string> {
    if lines == [] then {}
    else
      var last := lines[|lines| - 1];
      KeysOf(lines[..|lines| - 1], output) + (if Strip(last) != "" then {Key(output, last)} else {})
  }

  /** Line `i` of `lines` is not blank and produces key `k`. */
  predicate Produces(lines: seq<string>, i: int, output: string, k: string) {
    0 <= i < |lines| && Strip(lines[i]) != "" && k == Key(output, lines[i])
  }

  /** A key is loaded exactly when some non-blank line of the file produces it. */
  lemma {:induction false} KeysOfMembers(lines: seq<string>, output: string, k: string)
    ensures k in KeysOf(lines, output) <==> exists i :: Produces(lines, i, output, k)
  {
    if lines != [] {
      var n := |lines| - 1;
      var init := lines[..n];
      KeysOfMembers(init, output, k);
      assert forall i :: 0 <= i < n ==> (Produces(init, i, output, k) <==> Produces(lines, i, output, k));
      if k in KeysOf(init, output) {
        var i :| Produces(init, i, output, k);
        assert Produces(lines, i, output, k);
      } else if k in KeysOf(lines, output) {
        assert Produces(lines, n, output, k);
      }
      if k !in KeysOf(lines, output) {
        forall i | 0 <= i <= n ensures !Produces(lines, i, output, k) {
          if i < n {
            assert !Produces(init, i, output, k);
          }
        }
      }
    }
  }

  /** `load_downloaded`: a missing log gives the empty set; blank lines are skipped. */
  method LoadDownloaded(ledger: LedgerFile, output: string) returns (downloaded: set<string>)
    ensures downloaded == LoadedKeys(ledger, output)
    ensures ledger.Missing? ==> downloaded == {}
  {
    downloaded := {};
    if ledger.Missing? {
      return;
    }
    var lines := ledger.lines;
    for i := 0 to |lines|
      invariant downloaded == KeysOf(lines[..i], output)
    {
      assert lines[..i + 1][..i] == lines[..i];
      if Strip(lines[i]) != "" {
        downloaded := downloaded + {Key(output, lines[i])};
      }
    }
    assert lines[..|lines|] == lines;
  }

  /** `save_downloaded`: the file (created if absent) gains `path` as its last line. */
  function SaveDownloaded(ledger: LedgerFile, path: string): (r: LedgerFile)
    ensures r.Present? && Lines(r) == Lines(ledger) + [path]
  {
    Present(Lines(ledger) + [path])
  }

  /** Every key has the shape `join(output, b)` for a `b` with no separator and no trailing white space. */
  lemma KeyShape(ledger: LedgerFile, output: string, k: string)
    ensures k in LoadedKeys(ledger, output) ==>
              exists b :: k == Join(output, b) && '/' !in b && (b == "" || !IsSpace(b[|b| - 1]))
  {
    var lines := Lines(ledger);
    KeysOfMembers(lines, output, k);
    if k in LoadedKeys(ledger, output) {
      var i :| Produces(lines, i, output, k);
      var s := Strip(lines[i]);
      var b := Basename(s);
      BasenameIsTail(s);
      assert b == "" || b[|b| - 1] == s[|s| - 1];
      assert k == Join(output, b) && '/' !in b && (b == "" || !IsSpace(b[|b| - 1]));
    }
  }

  /** Appending one path adds exactly its key (if the line is not blank) and keeps every other key. */
  lemma SaveAddsKey(ledger: LedgerFile, output: string, path: string)
    ensures LoadedKeys(SaveDownloaded(ledger, path), output)
         == LoadedKeys(ledger, output) + (if Strip(path) != "" then {Key(output, path)} else {})
  {
    var lines := Lines(ledger) + [path];
    assert lines[..|lines| - 1] == Lines(ledger);
  }

  /** A ledger that only grew never loses a key. */
  lemma LoadedKeysMonotone(a: LedgerFile, b: LedgerFile, output: string)
    requires |Lines(a)| <= |Lines(b)| && Lines(b)[..|Lines(a)|] == Lines(a)
    ensures LoadedKeys(a, output) <= LoadedKeys(b, output)
  {
    forall k | k in LoadedKeys(a, output) ensures k in LoadedKeys(b, output) {
      KeysOfMembers(Lines(a), output, k);
      KeysOfMembers(Lines(b), output, k);
      var i :| Produces(Lines(a), i, output, k);
      assert Lines(b)[i] == Lines(a)[i];
      assert Produces(Lines(b), i, output, k);
    }
  }

  /**
   * Stripping a recorded path keeps its plain final component: the white space
   * `strip` removes lies in front of the directory's closing `/` or, without a
   * directory, nowhere.
   */
  lemma StrippedTail(recordedUnder: string, name: string)
    requires '/' !in name && name != "" && !IsSpace(name[|name| - 1])
    requires recordedUnder == "" ==> !IsSpace(name[0])
    ensures Strip(Join(recordedUnder, name)) != "" && Basename(Strip(Join(recordedUnder, name))) == name
  {
    var d := DirPrefix(recordedUnder);
    JoinShape(recordedUnder, name);
    if d == "" {
      assert Join(recordedUnder, name) == name;
      BasenameOfPlain(name);
    } else {
      StrippedBehindDir(d, name);
    }
  }

  /** Leading white space in front of a directory prefix ending in `/` leaves the name intact. */
  lemma StrippedBehindDir(d: string, name: string)
    requires '/' !in name && name != "" && !IsSpace(name[|name| - 1])
    requires d != "" && d[|d| - 1] == '/'
    ensures Strip(d + name) != "" && Basename(Strip(d + name)) == name
  {
    var p := d + name;
    assert p[|p| - 1] == name[|name| - 1];
    StripLeadingOnly(p);
    var k := |p| - |Strip(p)|;
    assert p[|d| - 1] == '/' && !IsSpace('/');
    assert k < |d|;
    var x := d[k..];
    assert Strip(p) == x + name;
    BasenameAppend(x, name);
    assert x[|x| - 1] == '/';
  }

  /**
   * The ledger round trip across runs: a path recorded as `join(recordedUnder, name)`
   * is found under ANY output directory, as long as `name` is a plain file name
   * that does not end in white space and, when recorded without a directory,
   * does not start with white space either.
   */
  lemma SavedIsFound(ledger: LedgerFile, recordedUnder: string, name: string, output: string)
    requires '/' !in name && name != "" && !IsSpace(name[|name| - 1])
    requires recordedUnder == "" ==> !IsSpace(name[0])
    ensures Join(output, name) in LoadedKeys(SaveDownloaded(ledger, Join(recordedUnder, name)), output)
  {
    var p := Join(recordedUnder, name);
    SaveAddsKey(ledger, output, p);
    StrippedTail(recordedUnder, name);
    assert Key(output, p) == Join(output, name);
  }

  /** Joining a plain name and joining a nested relative name never give the same path. */
  lemma NestedDiffers(output: string, name: string, b: string)
    requires '/' in name && name[0] != '/' && '/' !in b
    ensures Join(output, b) != Join(output, name)
  {
    JoinShape(output, name);
    JoinShape(output, b);
    if b != "" {
      assert b[0] != '/';
    }
    var d := DirPrefix(output);
    assert (d + b)[|d|..] == b && (d + name)[|d|..] == name;
  }

  /**
   * The nested-name quirk: a save path whose name holds a separator (and does not
   * start with one) is never a loaded key, whatever the ledger says, because loading
   * keeps only the final component.
   */
  lemma NestedNeverFound(ledger: LedgerFile, output: string, name: string)
    requires '/' in name && name[0] != '/'
    ensures Join(output, name) !in LoadedKeys(ledger, output)
  {
    KeyShape(ledger, output, Join(output, name));
    forall b | '/' !in b ensures Join(output, b) != Join(output, name) {
      NestedDiffers(output, name, b);
    }
  }

  /** A key never ends in white space, while a name ending in white space makes a path that does. */
  lemma SpaceDiffers(output: string, name: string, b: string)
    requires name != "" && IsSpace(name[|name| - 1])
    requires b == "" || !IsSpace(b[|b| - 1])
    ensures Join(output, b) != Join(output, name)
  {
    JoinShape(output, name);
    JoinShape(output, b);
    var p := Join(output, name);
    if b == "" {
      var d := DirPrefix(output);
      assert d == "" || d[|d| - 1] == '/';
      assert Join(output, b) == d;
    }
  }

  /**
   * The strip quirk: a save path whose name ends in white space (an extension
   * with a trailing blank) is never a loaded key: loading strips it away.
   */
  lemma TrailingSpaceNeverFound(ledger: LedgerFile, output: string, name: string)
    requires name != "" && IsSpace(name[|name| - 1])
    ensures Join(output, name) !in LoadedKeys(ledger, output)
  {
    KeyShape(ledger, output, Join(output, name));
    forall b | '/' !in b && (b == "" || !IsSpace(b[|b| - 1])) ensures Join(output, b) != Join(output, name) {
      SpaceDiffers(output, name, b);
    }
  }
}
