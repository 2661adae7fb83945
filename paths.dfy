/**
 * The path arithmetic of `process_email_body` (downloader.py:22-30, 79-80, 94
 * and grabEmails.py:185-186, 232-233, 243): the per-sender subfolder with its
 * unsafe characters replaced, `os.path.join`, the yt-dlp output template, the
 * title read back from a file name (`os.path.basename` then
 * `os.path.splitext`), and the temporary file ffmpeg writes.
 */
module Paths {
  import opened Optional

  /** The characters of the class `[\\ / * ? : " < > |]`, which a sender's folder name must not hold. */
  predicate IsUnsafe(c: char)
  {
    c == '\\' || c == '/' || c == '*' || c == '?' || c == ':' || c == '"' || c == '<' || c == '>' || c == '|'
  }

  function SafeChar(c: char): char
  {
    if IsUnsafe(c) then '_' else c
  }

  /** `re.sub` of that class with `_`: each unsafe character becomes an underscore. */
  function SafeName(name: string): (r: string)
    ensures |r| == |name| && IsSafe(r)
  {
    seq(|name|, i requires 0 <= i < |name| => SafeChar(name[i]))
  }

  predicate IsSafe(name: string)
  {
    forall i :: 0 <= i < |name| ==> !IsUnsafe(name[i])
  }

  /** `os.path.join(a, b)` on POSIX paths. */
  function PathJoin(a: string, b: string): string
  {
    if |b| > 0 && b[0] == '/' then b
    else if a == "" || a[|a| - 1] == '/' then a + b
    else a + "/" + b
  }

  /** The folder the downloads of one email go to: a subfolder only for a named sender with per-sender folders on. */
  function OutputFolder(folder: string, sender: Option<string>, autoMakeFolders: bool): (r: string)
    ensures folder <= r
  {
    if sender.Some? && sender.value != "" && autoMakeFolders then
      assert SafeName(sender.value)[0] != '/';
      PathJoin(folder, SafeName(sender.value))
    else folder
  }

  const TemplateName: string := "%(title)s.%(ext)s"

  /** The `-o` template handed to yt-dlp. */
  function OutputTemplate(folder: string): (r: string)
    ensures folder <= r && |r| > |folder|
  {
    PathJoin(folder, TemplateName)
  }

  /** The index of the last `c` in `s[..hi]`. */
  function LastIndex(s: string, c: char, hi: nat): (r: Option<nat>)
    requires hi <= |s|
    ensures r.None? ==> forall j :: 0 <= j < hi ==> s[j] != c
    ensures r.Some? ==> r.value < hi && s[r.value] == c
    ensures r.Some? ==> forall j :: r.value < j < hi ==> s[j] != c
  {
    if hi == 0 then None
    else if s[hi - 1] == c then Some(hi - 1)
    else LastIndex(s, c, hi - 1)
  }

  /** `os.path.basename(p)`: what follows the last `/`. */
  function Basename(p: string): string
  {
    match LastIndex(p, '/', |p|)
    case Some(k) => p[k + 1..]
    case None => p
  }

  predicate AllDots(s: string)
  {
    forall i :: 0 <= i < |s| ==> s[i] == '.'
  }

  /** `os.path.splitext(name)[0]` for a name without `/`: the part before the last dot, unless only dots precede it. */
  function Stem(name: string): string
  {
    match LastIndex(name, '.', |name|)
    case Some(d) => if AllDots(name[..d]) then name else name[..d]
    case None => name
  }

  /** The title the program expects in a downloaded file's metadata. */
  function Title(filename: string): (r: string)
    ensures '/' !in r && |r| <= |filename|
  {
    Stem(Basename(filename))
  }

  /** The file ffmpeg writes the retagged copy to. */
  function TempPath(filename: string): (r: string)
    ensures filename < r
  {
    filename + ".tmp.mp4"
  }

  // ---------------------------------------------------------------------
  // Properties

  /** The sanitised name has the same length, no unsafe character, and every other character where it was. */
  lemma SafeNameClean(name: string)
    ensures |SafeName(name)| == |name| && IsSafe(SafeName(name))
    ensures forall i :: 0 <= i < |name| ==> (SafeName(name)[i] == name[i] <==> !IsUnsafe(name[i]))
    ensures forall i :: 0 <= i < |name| ==> (SafeName(name)[i] != name[i] ==> SafeName(name)[i] == '_')
  {
  }

  /** A name that is already safe is left alone, so sanitising twice is sanitising once. */
  lemma SafeNameOfSafe(name: string)
    requires IsSafe(name)
    ensures SafeName(name) == name
  {
  }

  lemma SafeNameIdempotent(name: string)
    ensures SafeName(SafeName(name)) == SafeName(name)
  {
    SafeNameClean(name);
    SafeNameOfSafe(SafeName(name));
  }

  /** A named sender's folder is one level below the output folder, since the sanitised name has no `/`. */
  lemma SenderFolderInside(folder: string, sender: string, autoMakeFolders: bool)
    requires folder != "" && folder[|folder| - 1] != '/'
    requires sender != "" && autoMakeFolders
    ensures OutputFolder(folder, Some(sender), autoMakeFolders) == folder + "/" + SafeName(sender)
    ensures '/' !in SafeName(sender)
  {
    SafeNameClean(sender);
    assert SafeName(sender)[0] != '/';
  }

  /** Without per-sender folders, or without a name, everything goes to the configured folder. */
  lemma NoSenderFolder(folder: string, sender: Option<string>, autoMakeFolders: bool)
    requires !autoMakeFolders || sender.None? || sender == Some("")
    ensures OutputFolder(folder, sender, autoMakeFolders) == folder
  {
  }

  /** The sanitiser leaves dots alone, so a sender named `..` gets the parent of the output folder. */
  lemma DotsSurvive()
    ensures SafeName("..") == ".."
    ensures OutputFolder("/downloads", Some(".."), true) == "/downloads/.."
  {
    SafeNameOfSafe("..");
  }

  /** The name after the last `/` of `dir + "/" + name`. */
  lemma BasenameOfJoin(dir: string, name: string)
    requires '/' !in name
    ensures Basename(dir + "/" + name) == name
  {
    var p := dir + "/" + name;
    assert p[|dir|] == '/';
    assert forall j :: |dir| < j < |p| ==> p[j] == name[j - |dir| - 1];
    var k := LastIndex(p, '/', |p|);
    assert k == Some(|dir|);
    assert p[|dir| + 1..] == name;
  }

  /** `splitext` drops exactly the extension yt-dlp appended. */
  lemma StemOfName(title: string, ext: string)
    requires '.' !in ext && !AllDots(title)
    ensures Stem(title + "." + ext) == title
  {
    var name := title + "." + ext;
    assert name[|title|] == '.';
    assert forall j :: |title| < j < |name| ==> name[j] == ext[j - |title| - 1];
    assert LastIndex(name, '.', |name|) == Some(|title|);
    assert name[..|title|] == title;
  }

  /** The title recovered from a file the output template produced is the title yt-dlp put into it. */
  lemma TitleOfDownload(folder: string, title: string, ext: string)
    requires '/' !in title && '/' !in ext && '.' !in ext && !AllDots(title)
    ensures Title(folder + "/" + title + "." + ext) == title
  {
    assert folder + "/" + title + "." + ext == folder + "/" + (title + "." + ext);
    BasenameOfJoin(folder, title + "." + ext);
    StemOfName(title, ext);
  }

  /** A file without a real extension is its own title, as `splitext` leaves hidden names whole. */
  lemma StemWithoutExtension(name: string)
    requires '.' !in name || ("." <= name && forall i :: 1 <= i < |name| ==> name[i] != '.')
    ensures Stem(name) == name
  {
  }

  /** The temporary file is never the file itself. */
  lemma TempDiffers(filename: string)
    ensures TempPath(filename) != filename
  {
    assert |TempPath(filename)| == |filename| + 8;
  }
}
