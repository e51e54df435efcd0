/** The name of the exported summary file: the stem of the uploaded file's
    name (`os.path.splitext` on POSIX paths), else the database and table
    names, else "summary"; always followed by "_summary.csv". */
module Paths {
  import opened Wrappers

  /** No character of `p` from index `k` on is `c`. */
  predicate NoneFrom(p: string, k: int, c: char) {
    forall j :: 0 <= j < |p| && k <= j ==> p[j] != c
  }

  /** `p` has an extension: a dot in its last path component that is not
      part of the component's leading run of dots. */
  ghost predicate HasExtension(p: string) {
    exists k, d :: 0 <= k < d < |p| && p[d] == '.' && p[k] != '.' && NoneFrom(p, k, '/')
  }

  /** Some character of `p[lo..hi]` is not a dot. */
  predicate NonDotIn(p: string, lo: int, hi: int) {
    exists k :: 0 <= k < |p| && lo <= k < hi && p[k] != '.'
  }

  /** The index just after the last '/' of `p`; 0 when there is none. */
  function ComponentStart(p: string): (r: nat)
    ensures r <= |p|
    ensures r > 0 ==> p[r - 1] == '/'
    ensures NoneFrom(p, r, '/')
  {
    if |p| == 0 then 0
    else if p[|p| - 1] == '/' then |p|
    else
      var r := ComponentStart(p[..|p| - 1]);
      assert forall j :: 0 <= j < |p| - 1 ==> p[..|p| - 1][j] == p[j];
      r
  }

  /** The index of the last '.' of `p` at or after `lo`; -1 when there is none. */
  function LastDotFrom(p: string, lo: nat): (r: int)
    ensures r == -1 || (lo <= r < |p| && p[r] == '.')
    ensures NoneFrom(p, if r < lo then lo else r + 1, '.')
  {
    if |p| <= lo then -1
    else if p[|p| - 1] == '.' then |p| - 1
    else
      var r := LastDotFrom(p[..|p| - 1], lo);
      assert forall j :: 0 <= j < |p| - 1 ==> p[..|p| - 1][j] == p[j];
      r
  }

  /** The last dot is the one with no dot after it. */
  lemma LastDotFromIs(p: string, lo: nat, i: int)
    requires i == -1 || (lo <= i < |p| && p[i] == '.')
    requires NoneFrom(p, if i < lo then lo else i + 1, '.')
    ensures LastDotFrom(p, lo) == i
  {
    var r := LastDotFrom(p, lo);
    assert r >= 0 ==> p[r] == '.';
    assert i >= 0 ==> p[i] == '.';
  }

  /** The last component starts right after the last separator. */
  lemma ComponentStartIs(p: string, i: nat)
    requires i <= |p| && (i > 0 ==> p[i - 1] == '/') && NoneFrom(p, i, '/')
    ensures ComponentStart(p) == i
  {
    var r := ComponentStart(p);
    assert r > 0 ==> p[r - 1] == '/';
    assert i > 0 ==> p[i - 1] == '/';
  }

  /** A dot in the last component with a non-dot before it there is an
      extension. */
  lemma ExtensionFound(p: string, s: nat, d: nat)
    requires s <= d < |p| && p[d] == '.' && NoneFrom(p, s, '/')
    requires NonDotIn(p, s, d)
    ensures HasExtension(p)
  {
    var k :| 0 <= k < |p| && s <= k < d && p[k] != '.';
    assert NoneFrom(p, k, '/');
  }

  /** Without such a dot there is no extension. */
  lemma ExtensionAbsent(p: string, s: nat, d: int)
    requires s <= |p| && (s > 0 ==> p[s - 1] == '/')
    requires d == -1 || s <= d < |p|
    requires NoneFrom(p, if d < s then s else d + 1, '.')
    requires d == -1 || !NonDotIn(p, s, d)
    ensures !HasExtension(p)
  {
    forall k, d0 | 0 <= k < d0 < |p| && p[d0] == '.' && p[k] != '.'
      ensures !NoneFrom(p, k, '/')
    {
      if s <= k {
        assert d0 <= d;
        assert NonDotIn(p, s, d);
      }
    }
  }

  /** `os.path.splitext(p)` for '/' as separator: cuts `p` before its last
      dot when that dot lies in the last component and something other than
      a dot precedes it there; otherwise the extension is empty. */
  function SplitExt(p: string): (r: (string, string))
    ensures r.0 + r.1 == p
  {
    var s := ComponentStart(p);
    var d := LastDotFrom(p, s);
    if d >= 0 && NonDotIn(p, s, d) then (p[..d], p[d..]) else (p, "")
  }

  /** The extension is empty or a dot followed by neither a dot nor a
      separator. */
  lemma SplitExtShape(p: string)
    ensures var e := SplitExt(p).1;
      e == "" || (e[0] == '.' && NoneFrom(e, 1, '.') && NoneFrom(e, 0, '/'))
  {
    var s := ComponentStart(p);
    var d := LastDotFrom(p, s);
    if d >= 0 && NonDotIn(p, s, d) {
      assert SplitExt(p).1 == p[d..];
      assert forall j :: 0 <= j < |p| - d ==> p[d..][j] == p[d + j];
    }
  }

  /** `splitext` finds an extension exactly when the name has one. */
  lemma SplitExtFindsExtension(p: string)
    ensures SplitExt(p).1 != "" <==> HasExtension(p)
  {
    var s := ComponentStart(p);
    var d := LastDotFrom(p, s);
    if d >= 0 && NonDotIn(p, s, d) {
      assert SplitExt(p).1 == p[d..];
      ExtensionFound(p, s, d);
    } else {
      assert SplitExt(p).1 == "";
      ExtensionAbsent(p, s, d);
    }
  }

  /** `os.path.splitext(name)[0]`. */
  function Stem(name: string): string { SplitExt(name).0 }

  lemma SplitExtCsv()
    ensures SplitExt("sales.csv") == ("sales", ".csv")
  {
    var p := "sales.csv";
    ComponentStartIs(p, 0);
    LastDotFromIs(p, 0, 5);
    assert NonDotIn(p, 0, 5) by {
      assert p[0] != '.';
    }
    assert p[..5] == "sales" && p[5..] == ".csv";
  }

  /** Only the last dot starts the extension. */
  lemma SplitExtLastDotOnly()
    ensures SplitExt("archive.tar.gz") == ("archive.tar", ".gz")
  {
    var p := "archive.tar.gz";
    ComponentStartIs(p, 0);
    LastDotFromIs(p, 0, 11);
    assert NonDotIn(p, 0, 11) by {
      assert p[0] != '.';
    }
    assert p[..11] == "archive.tar" && p[11..] == ".gz";
  }

  /** A leading dot does not start an extension. */
  lemma SplitExtHiddenFile()
    ensures SplitExt(".bashrc") == (".bashrc", "")
  {
    var p := ".bashrc";
    ComponentStartIs(p, 0);
    LastDotFromIs(p, 0, 0);
  }

  /** A dot in a directory name does not start an extension. */
  lemma SplitExtDottedDirectory()
    ensures SplitExt("dir.d/data") == ("dir.d/data", "")
  {
    var p := "dir.d/data";
    ComponentStartIs(p, 6);
    LastDotFromIs(p, 6, -1);
  }

  /** The export file name for a base name. */
  function ExportName(base: string): (r: string)
    ensures |r| == |base| + |"_summary.csv"|
    ensures r[..|base|] == base && r[|base|..] == "_summary.csv"
  {
    base + "_summary.csv"
  }

  /** The base name read back from an export file name. */
  function BaseOfExport(name: string): Option<string> {
    var n := |"_summary.csv"|;
    if |name| >= n && name[|name| - n..] == "_summary.csv" then Some(name[..|name| - n]) else None
  }

  /** The base name can be read back from the export name. */
  lemma ExportNameRoundTrip(base: string)
    ensures BaseOfExport(ExportName(base)) == Some(base)
  {
    var r := ExportName(base);
    assert r[|r| - |"_summary.csv"|..] == "_summary.csv";
  }

  /** Different bases give different export names. */
  lemma ExportNameInjective(a: string, b: string)
    requires ExportName(a) == ExportName(b)
    ensures a == b
  {
    ExportNameRoundTrip(a);
    ExportNameRoundTrip(b);
  }

  /** The later profiler's base name: the upload's stem when a file was
      uploaded, else "db_table" when a database name and a selected table
      are both present and non-empty, else "summary". */
  function BaseFilename(upload: Option<string>, dbName: Option<string>, table: Option<string>): (r: string)
    ensures upload.Some? ==> r == Stem(upload.value)
    ensures upload.None? && dbName.Some? && table.Some? && dbName.value != "" && table.value != "" ==>
              r == dbName.value + "_" + table.value
    ensures upload.None? && !(dbName.Some? && table.Some? && dbName.value != "" && table.value != "") ==>
              r == "summary"
  {
    if upload.Some? then Stem(upload.value)
    else if dbName.Some? && table.Some? && dbName.value != "" && table.value != "" then dbName.value + "_" + table.value
    else "summary"
  }

  /** The earlier profiler's base name: the upload's stem, else "summary". */
  function BaseFilenameUploadOnly(upload: Option<string>): (r: string)
    ensures upload.Some? ==> r == Stem(upload.value)
    ensures upload.None? ==> r == "summary"
  {
    if upload.Some? then Stem(upload.value) else "summary"
  }

  /** The later rule only adds the database fallback to the earlier one. */
  lemma BaseFilenameExtendsUploadOnly(upload: Option<string>, dbName: Option<string>, table: Option<string>)
    requires upload.Some? || dbName.None? || table.None?
    ensures BaseFilename(upload, dbName, table) == BaseFilenameUploadOnly(upload)
  {
  }

  /** An uploaded file's stem is a prefix of its name, short of any extension. */
  lemma StemIsPrefix(name: string)
    ensures |Stem(name)| <= |name| && name[..|Stem(name)|] == Stem(name)
    ensures HasExtension(name) ==> |Stem(name)| < |name| && name[|Stem(name)|] == '.'
  {
    var r := SplitExt(name);
    assert name == r.0 + r.1;
    assert name[..|r.0|] == r.0;
  }
}
