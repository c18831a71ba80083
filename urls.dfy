/**
 * Where each manifest row is fetched from and saved to: `construct_url` and
 * the per-row derivation of subdomain, save name and save path in `main`.
 */
module Urls {
  import opened Wrappers
  import opened Paths

  /** The fixed part of every upload URL. */
  const UploadsRoot: string := "https://us-east-1.tixte.net/uploads/"

  /** One manifest row as the CSV reader hands it over; `subdomain` is `None` when the column is absent. */
  datatype Row = Row(filename: string, extension: string, subdomain: Option<string>)

  /** The three parts an upload URL is made of. */
  datatype UrlParts = UrlParts(subdomain: string, filename: string, extension: string)

  /** What the driver derives from a row: the URL to fetch, the path to write and the name shown in the log. */
  datatype Target = Target(url: string, savePath: string, saveName: string)

  /** `construct_url`: total, so an empty subdomain still gives a URL (with an empty path segment). */
  function ConstructUrl(subdomain: string, filename: string, extension: string): (url: string)
    ensures |url| == |UploadsRoot| + |subdomain| + |filename| + |extension| + 2
    ensures url[..|UploadsRoot|] == UploadsRoot
  {
    UploadsRoot + subdomain + "/" + filename + "." + extension
  }

  /** Index of the first `c` in `s`, or `|s|` when there is none. */
  function IndexOf(s: string, c: char): (i: nat)
    ensures i <= |s|
    ensures i < |s| ==> s[i] == c
    ensures forall k :: 0 <= k < i ==> s[k] != c
  {
    if s == [] || s[0] == c then 0 else 1 + IndexOf(s[1..], c)
  }

  /** Index of the last `c` in `s`, or -1 when there is none. */
  function LastIndexOf(s: string, c: char): (i: int)
    ensures -1 <= i < |s|
    ensures 0 <= i ==> s[i] == c
    ensures forall k :: i < k < |s| ==> s[k] != c
  {
    if s == [] then -1
    else if s[|s| - 1] == c then |s| - 1
    else LastIndexOf(s[..|s| - 1], c)
  }

  /**
   * Reads an upload URL back into its parts: the subdomain runs to the first `/`
   * after the root, the extension starts after the last `.`.
   */
  function ParseUrl(url: string): (r: Option<UrlParts>)
    ensures r.Some? ==> |UploadsRoot| <= |url| && url[..|UploadsRoot|] == UploadsRoot
    ensures r.Some? ==> '/' !in r.value.subdomain && '.' !in r.value.extension
  {
    if |url| < |UploadsRoot| || url[..|UploadsRoot|] != UploadsRoot then None
    else
      var rest := url[|UploadsRoot|..];
      var i := IndexOf(rest, '/');
      if i == |rest| then None
      else
        var file := rest[i + 1..];
        var j := LastIndexOf(file, '.');
        if j < 0 then None
        else Some(UrlParts(rest[..i], file[..j], file[j + 1..]))
  }

  /** `IndexOf` finds the first occurrence. */
  lemma IndexOfIs(s: string, c: char, i: nat)
    requires i < |s| && s[i] == c && forall k :: 0 <= k < i ==> s[k] != c
    ensures IndexOf(s, c) == i
  {
  }

  /** `LastIndexOf` finds the last occurrence. */
  lemma LastIndexOfIs(s: string, c: char, i: nat)
    requires i < |s| && s[i] == c && forall k :: i < k < |s| ==> s[k] != c
    ensures LastIndexOf(s, c) == i
  {
  }

  /** `ConstructUrl` regrouped as the root followed by the path after it. */
  lemma ConstructSplit(root: string, subdomain: string, filename: string, extension: string)
    ensures root + subdomain + "/" + filename + "." + extension == root + (subdomain + "/" + (filename + "." + extension))
    ensures (root + (subdomain + "/" + (filename + "." + extension)))[|root|..] == subdomain + "/" + (filename + "." + extension)
  {
  }

  /** Splitting `a + "/" + b` at its first `/` gives back `a` and `b` when `a` has none. */
  lemma SplitFirstSlash(a: string, b: string)
    requires '/' !in a
    ensures var s := a + "/" + b;
            IndexOf(s, '/') == |a| && s[..|a|] == a && s[|a| + 1..] == b
  {
    var s := a + "/" + b;
    assert forall k :: 0 <= k < |a| ==> s[k] == a[k];
    IndexOfIs(s, '/', |a|);
    assert s[..|a|] == a;
    assert s[|a| + 1..] == b;
  }

  /** Splitting `a + "." + b` at its last `.` gives back `a` and `b` when `b` has none. */
  lemma SplitLastDot(a: string, b: string)
    requires '.' !in b
    ensures var s := a + "." + b;
            LastIndexOf(s, '.') == |a| && s[..|a|] == a && s[|a| + 1..] == b
  {
    var s := a + "." + b;
    assert forall k :: |a| < k < |s| ==> s[k] == b[k - |a| - 1];
    LastIndexOfIs(s, '.', |a|);
    assert s[..|a|] == a;
    assert s[|a| + 1..] == b;
  }

  /** `ParseUrl` undoes `ConstructUrl` whenever the subdomain has no `/` and the extension no `.`. */
  lemma ParseConstruct(subdomain: string, filename: string, extension: string)
    requires '/' !in subdomain && '.' !in extension
    ensures ParseUrl(ConstructUrl(subdomain, filename, extension)) == Some(UrlParts(subdomain, filename, extension))
  {
    var name := filename + "." + extension;
    assert ConstructUrl(subdomain, filename, extension)[|UploadsRoot|..] == subdomain + "/" + name by {
      ConstructSplit(UploadsRoot, subdomain, filename, extension);
    }
    SplitFirstSlash(subdomain, name);
    SplitLastDot(filename, extension);
  }

  /** Two rows get the same URL only if they name the same upload. */
  lemma ConstructInjective(s1: string, f1: string, e1: string, s2: string, f2: string, e2: string)
    requires '/' !in s1 && '.' !in e1 && '/' !in s2 && '.' !in e2
    requires ConstructUrl(s1, f1, e1) == ConstructUrl(s2, f2, e2)
    ensures s1 == s2 && f1 == f2 && e1 == e2
  {
    ParseConstruct(s1, f1, e1);
    ParseConstruct(s2, f2, e2);
  }

  /** Python truthiness of an optional string setting: present and not empty. */
  predicate Truthy(v: Option<string>) {
    v.Some? && v.value != ""
  }

  /** `row.get('Subdomain') or default_subdomain or ''`: the first truthy of the two, else the empty string. */
  function ChooseSubdomain(fromRow: Option<string>, configured: Option<string>): (s: string)
    ensures Truthy(fromRow) ==> s == fromRow.value
    ensures !Truthy(fromRow) && Truthy(configured) ==> s == configured.value
    ensures s == "" <==> !Truthy(fromRow) && !Truthy(configured)
  {
    if Truthy(fromRow) then fromRow.value
    else if Truthy(configured) then configured.value
    else ""
  }

  /** `f"{filename}.{extension}"`. */
  function SaveName(row: Row): string {
    row.filename + "." + row.extension
  }

  /** The save name splits at its last `.` back into the row's file name and extension, when the extension has none. */
  lemma SaveNameParts(row: Row)
    requires '.' !in row.extension
    ensures var n := SaveName(row);
            LastIndexOf(n, '.') == |row.filename| && n[..|row.filename|] == row.filename
            && n[|row.filename| + 1..] == row.extension
  {
    SplitLastDot(row.filename, row.extension);
  }

  /**
   * The per-row derivation: URL from the chosen subdomain, save path by joining
   * the output directory and the save name.
   */
  function TargetFor(row: Row, output: string, defaultSubdomain: Option<string>): Target {
    Target(ConstructUrl(ChooseSubdomain(row.subdomain, defaultSubdomain), row.filename, row.extension),
           Join(output, SaveName(row)), SaveName(row))
  }

  /**
   * The save path ends in the save name's final component, so a plain save
   * name is exactly the final component of its save path, whatever the output
   * directory.
   */
  lemma TargetBasename(row: Row, output: string, defaultSubdomain: Option<string>)
    ensures var t := TargetFor(row, output, defaultSubdomain);
            && Basename(t.savePath) == Basename(t.saveName)
            && ('/' !in t.saveName ==> Basename(t.savePath) == t.saveName)
  {
    var name := SaveName(row);
    BasenameOfJoin(output, name);
    if '/' !in name {
      BasenameOfPlain(name);
    }
  }
}
