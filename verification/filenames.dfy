/** File names for downloaded documents: `clean_filename` and the path
    built for each announcement in `batch_download_sequential`. */
module Filenames {

  /** The nine characters the sanitiser deletes: backslash, slash, star,
      question mark, colon, double quote, angle brackets and bar. */
  predicate Illegal(c: char) {
    c in {'\\', '/', '*', '?', ':', '\"', '<', '>', '|'}
  }

  predicate NoIllegal(s: string) {
    forall i :: 0 <= i < |s| ==> !Illegal(s[i])
  }

  /** `clean_filename`: delete every illegal character, keep the rest in order. */
  function CleanFilename(s: string): (r: string)
    ensures NoIllegal(r)
    ensures |r| <= |s|
    decreases |s|
  {
    if s == [] then []
    else if Illegal(s[0]) then CleanFilename(s[1..])
    else [s[0]] + CleanFilename(s[1..])
  }

  /** Deleting distributes over concatenation; together with the behaviour
      on a single character this pins the function down as "the input with
      the illegal characters deleted, others kept in order". */
  lemma {:induction false} CleanFilenameAppend(a: string, b: string)
    ensures CleanFilename(a + b) == CleanFilename(a) + CleanFilename(b)
    decreases |a|
  {
    if a == [] {
      assert a + b == b;
    } else {
      assert (a + b)[1..] == a[1..] + b;
      CleanFilenameAppend(a[1..], b);
    }
  }

  /** A single character survives exactly when it is not illegal. */
  lemma CleanFilenameChar(c: char)
    ensures CleanFilename([c]) == if Illegal(c) then [] else [c]
  {
    assert [c][1..] == [];
  }

  /** Every legal character occurs in the result exactly as often as in the
      input; illegal ones not at all. */
  lemma {:induction false} CleanFilenameCounts(s: string, c: char)
    ensures multiset(CleanFilename(s))[c] == if Illegal(c) then 0 else multiset(s)[c]
    decreases |s|
  {
    if s != [] {
      CleanFilenameCounts(s[1..], c);
      assert s == [s[0]] + s[1..];
    }
  }

  /** A name without illegal characters is left as it is. */
  lemma {:induction false} CleanFilenameKeepsClean(s: string)
    requires NoIllegal(s)
    ensures CleanFilename(s) == s
    decreases |s|
  {
    if s != [] {
      CleanFilenameKeepsClean(s[1..]);
    }
  }

  /** Sanitising twice is the same as sanitising once. */
  lemma {:induction false} CleanFilenameIdempotent(s: string)
    ensures CleanFilename(CleanFilename(s)) == CleanFilename(s)
  {
    CleanFilenameKeepsClean(CleanFilename(s));
  }

  /** POSIX `os.path.join(dir, name)` for one component: an absolute `name`
      replaces `dir`; otherwise a `/` is inserted unless `dir` is empty or
      already ends with one. */
  function Join(dir: string, name: string): (p: string)
    ensures |name| > 0 && name[0] == '/' ==> p == name
    ensures (name == [] || name[0] != '/') ==>
      && |dir| + |name| <= |p| <= |dir| + |name| + 1
      && p[..|dir|] == dir
      && p[|p| - |name|..] == name
      && (|p| == |dir| + |name| + 1 <==> dir != [] && dir[|dir| - 1] != '/')
      && (|p| == |dir| + |name| + 1 ==> p[|dir|] == '/')
  {
    if |name| > 0 && name[0] == '/' then name
    else if dir == [] || dir[|dir| - 1] == '/' then dir + name
    else dir + "/" + name
  }

  /** The file name given to an announcement's PDF. */
  function PdfName(title: string): string {
    CleanFilename(title) + ".pdf"
  }

  lemma PdfNameHasNoSeparator(title: string)
    ensures forall i :: 0 <= i < |PdfName(title)| ==> PdfName(title)[i] != '/'
  {
    var clean := CleanFilename(title);
    forall i | 0 <= i < |PdfName(title)|
      ensures PdfName(title)[i] != '/'
    {
      if i < |clean| {
        assert !Illegal(clean[i]);
      }
    }
  }

  /** `os.path.join(target_dir, clean_filename(title) + ".pdf")`. The
      sanitised name holds no `/`, so the file lands directly inside
      `target_dir`: the path starts with the directory, ends with the
      sanitised title and `.pdf`, and after the directory at most one
      separator follows, right at its end. */
  function DownloadPath(targetDir: string, title: string): (p: string)
    ensures |targetDir| <= |p| && p[..|targetDir|] == targetDir
    ensures |PdfName(title)| <= |p| && p[|p| - |PdfName(title)|..] == PdfName(title)
    ensures |p| <= |targetDir| + 1 + |PdfName(title)|
    ensures forall i :: |targetDir| < i < |p| ==> p[i] != '/'
    ensures (targetDir == [] || targetDir[|targetDir| - 1] == '/') ==> p == targetDir + PdfName(title)
    ensures (targetDir != [] && targetDir[|targetDir| - 1] != '/') ==> p == targetDir + "/" + PdfName(title)
  {
    PdfNameHasNoSeparator(title);
    Join(targetDir, PdfName(title))
  }

  /** Deleting one illegal character from the input changes nothing. */
  lemma CleanFilenameSkipsIllegal(a: string, c: char, b: string)
    requires Illegal(c)
    ensures CleanFilename(a + [c] + b) == CleanFilename(a + b)
  {
    CleanFilenameAppend(a + [c], b);
    CleanFilenameAppend(a, [c]);
    CleanFilenameChar(c);
    CleanFilenameAppend(a, b);
  }

  /** Titles that differ only in illegal characters share one path, so a
      later download overwrites an earlier one. */
  lemma DownloadPathIgnoresIllegal(targetDir: string, a: string, c: char, b: string)
    requires Illegal(c)
    ensures DownloadPath(targetDir, a + [c] + b) == DownloadPath(targetDir, a + b)
  {
    CleanFilenameSkipsIllegal(a, c, b);
    assert PdfName(a + [c] + b) == PdfName(a + b);
  }
}
