/**
 * The file-system provider (IFileIO / FileIOProvider): a store of text files
 * and directories, the log of the files written (their modification
 * stamps), and the XML-escaped project-relative path of an asset.
 */
module FileIO {
  import opened Wrappers
  import Text

  /** A snapshot of the files: their contents and, in order, every path written. */
  datatype Disk = Disk(files: map<string, string>, writeLog: seq<string>)

  /** `File.WriteAllText`: the file now holds `content` and one more write is logged. */
  function Write(d: Disk, path: string, content: string): (r: Disk)
    ensures path in r.files && r.files[path] == content
    ensures forall p :: p != path ==> (p in r.files <==> p in d.files)
    ensures forall p :: p != path && p in d.files ==> r.files[p] == d.files[p]
    ensures |r.writeLog| == |d.writeLog| + 1 && r.writeLog[|d.writeLog|] == path
  {
    Disk(d.files[path := content], d.writeLog + [path])
  }

  /** Write `content` unless the file already holds exactly that text. */
  function SyncFile(d: Disk, path: string, content: string): (r: Disk)
    ensures path in r.files && r.files[path] == content
    ensures forall p :: p != path ==> (p in r.files <==> p in d.files)
    ensures forall p :: p != path && p in d.files ==> r.files[p] == d.files[p]
    ensures r.writeLog == d.writeLog <==> path in d.files && d.files[path] == content
  {
    if path in d.files && d.files[path] == content then d else Write(d, path, content)
  }

  /** Syncing the same file twice writes at most once. */
  lemma SyncFileIdempotent(d: Disk, path: string, content: string)
    ensures SyncFile(SyncFile(d, path, content), path, content) == SyncFile(d, path, content)
  {
  }

  /** Write `content` only when no file is there yet; an existing file is left as it is. */
  function WriteIfAbsent(d: Disk, path: string, content: string): (r: Disk)
    ensures path in d.files ==> r == d
    ensures path !in d.files ==> path in r.files && r.files[path] == content
    ensures forall p :: p != path ==> (p in r.files <==> p in d.files)
    ensures forall p :: p != path && p in d.files ==> r.files[p] == d.files[p]
  {
    if path in d.files then d else Write(d, path, content)
  }

  class FileSystem {
    var files: map<string, string>
    var directories: set<string>
    var writeLog: seq<string>

    constructor (files: map<string, string>, directories: set<string>)
      ensures this.files == files && this.directories == directories && writeLog == []
    {
      this.files := files;
      this.directories := directories;
      writeLog := [];
    }

    function State(): Disk
      reads this
    {
      Disk(files, writeLog)
    }

    /** `File.Exists`: true for a file only, never for a directory. */
    predicate Exists(fileName: string)
      reads this
    {
      fileName in files
    }

    /** `File.ReadAllText`; None stands for the FileNotFoundException. */
    function ReadAllText(fileName: string): (r: Option<string>)
      reads this
      ensures r.Some? <==> Exists(fileName)
      ensures r.Some? ==> r.value == files[fileName]
    {
      if fileName in files then Some(files[fileName]) else None
    }

    method WriteAllText(fileName: string, content: string)
      modifies this
      ensures State() == Write(old(State()), fileName, content)
      ensures directories == old(directories)
    {
      files := files[fileName := content];
      writeLog := writeLog + [fileName];
    }

    /** `File.Copy`; `ok` is false where .NET throws (missing source, or an existing target without `overwrite`). */
    method Copy(sourceFileName: string, destFileName: string, overwrite: bool) returns (ok: bool)
      modifies this
      ensures ok <==> old(Exists(sourceFileName)) && (overwrite || !old(Exists(destFileName)))
      ensures ok ==> State() == Write(old(State()), destFileName, old(files[sourceFileName]))
      ensures !ok ==> State() == old(State())
      ensures directories == old(directories)
    {
      if sourceFileName !in files || (!overwrite && destFileName in files) {
        return false;
      }
      WriteAllText(destFileName, files[sourceFileName]);
      return true;
    }

    /** `Directory.CreateDirectory`; creating one that exists is not an error. */
    method CreateDirectory(pathName: string)
      modifies this
      ensures directories == old(directories) + {pathName}
      ensures State() == old(State())
    {
      directories := directories + {pathName};
    }
  }

  /** `SecurityElement.Escape` of one character. */
  function EscapeChar(c: char): string {
    match c
    case '<' => "&lt;"
    case '>' => "&gt;"
    case '"' => "&quot;"
    case '\'' => "&apos;"
    case '&' => "&amp;"
    case _ => [c]
  }

  predicate IsXmlSpecial(c: char) {
    c == '<' || c == '>' || c == '"' || c == '\'' || c == '&'
  }

  /** One of the five entities begins at position `i` of `s`. */
  predicate StartsEntity(s: string, i: nat)
    requires i <= |s|
  {
    var t := s[i..];
    "&lt;" <= t || "&gt;" <= t || "&quot;" <= t || "&apos;" <= t || "&amp;" <= t
  }

  /** Every '&' of `s` is the start of an entity. */
  predicate AmpersandsStartEntities(s: string) {
    forall i :: 0 <= i < |s| && s[i] == '&' ==> StartsEntity(s, i)
  }

  /** `SecurityElement.Escape`: the five XML-special characters become entities. */
  function XmlEscape(s: string): (r: string)
    ensures forall i :: 0 <= i < |r| ==> r[i] != '<' && r[i] != '>' && r[i] != '"' && r[i] != '\''
    ensures AmpersandsStartEntities(r)
    ensures |r| >= |s|
  {
    if s == [] then []
    else
      var rest := XmlEscape(s[1..]);
      EscapeCharKeepsEntities(s[0], rest);
      EscapeCharKeepsPlain(s[0], rest);
      EscapeChar(s[0]) + rest
  }

  /** No character escapes to a raw '<', '>', '"' or '\''. */
  lemma EscapeCharKeepsPlain(c: char, rest: string)
    requires forall i :: 0 <= i < |rest| ==> rest[i] != '<' && rest[i] != '>' && rest[i] != '"' && rest[i] != '\''
    ensures var t := EscapeChar(c) + rest;
      forall i :: 0 <= i < |t| ==> t[i] != '<' && t[i] != '>' && t[i] != '"' && t[i] != '\''
  {
    var e := EscapeChar(c);
    assert forall i :: 0 <= i < |e| ==> e[i] != '<' && e[i] != '>' && e[i] != '"' && e[i] != '\'';
  }

  /** An escaped character in front of text whose ampersands start entities keeps that so. */
  lemma EscapeCharKeepsEntities(c: char, rest: string)
    requires AmpersandsStartEntities(rest)
    ensures AmpersandsStartEntities(EscapeChar(c) + rest)
  {
    var e := EscapeChar(c);
    var t := e + rest;
    forall i | 0 <= i < |t| && t[i] == '&' ensures StartsEntity(t, i) {
      if i >= |e| {
        assert t[i..] == rest[i - |e|..];
        assert rest[i - |e|] == '&';
      } else {
        assert e <= t[0..];
        if IsXmlSpecial(c) {
          assert forall k :: 0 < k < |e| ==> e[k] != '&';
          assert t[i] == e[i];
        }
      }
    }
  }

  /** Reads the five entities back; the other characters stand for themselves. */
  function XmlUnescape(s: string): string {
    if s == [] then []
    else if s[0] != '&' then [s[0]] + XmlUnescape(s[1..])
    else if "&lt;" <= s then "<" + XmlUnescape(s[4..])
    else if "&gt;" <= s then ">" + XmlUnescape(s[4..])
    else if "&quot;" <= s then "\"" + XmlUnescape(s[6..])
    else if "&apos;" <= s then "'" + XmlUnescape(s[6..])
    else if "&amp;" <= s then "&" + XmlUnescape(s[5..])
    else [s[0]] + XmlUnescape(s[1..])
  }

  /** Escaping loses nothing: an XML reader gets the original text back. */
  lemma {:induction false} XmlEscapeRoundTrip(s: string)
    ensures XmlUnescape(XmlEscape(s)) == s
  {
    if s != [] {
      XmlEscapeRoundTrip(s[1..]);
      UnescapeEscapedChar(s[0], XmlEscape(s[1..]));
      assert [s[0]] + s[1..] == s;
    }
  }

  lemma UnescapeEscapedChar(c: char, rest: string)
    ensures XmlUnescape(EscapeChar(c) + rest) == [c] + XmlUnescape(rest)
  {
    var t := EscapeChar(c) + rest;
    assert t[|EscapeChar(c)|..] == rest;
    if c == '<' {
      assert "&lt;" <= t;
    } else if c == '>' {
      assert t[1] == 'g' && "&gt;" <= t;
    } else if c == '"' {
      assert t[1] == 'q' && "&quot;" <= t;
    } else if c == '\'' {
      assert t[1] == 'a' && t[2] == 'p' && "&apos;" <= t;
    } else if c == '&' {
      assert t[1] == 'a' && t[2] == 'm' && "&amp;" <= t;
    } else {
      assert t[0] == c;
    }
  }

  /** A path without special characters is written unchanged. */
  lemma {:induction false} XmlEscapePlain(s: string)
    requires forall i :: 0 <= i < |s| ==> !IsXmlSpecial(s[i])
    ensures XmlEscape(s) == s
  {
    if s != [] {
      XmlEscapePlain(s[1..]);
      assert [s[0]] + s[1..] == s;
    }
  }

  /** Strips `prefix` and one separator from the front of `path` when it is there. */
  function SkipPathPrefix(path: string, prefix: string): (r: string)
    ensures r == path || prefix + "/" + r == path
    ensures r != path <==> prefix + "/" <= path
  {
    if prefix + "/" <= path then
      var r := path[|prefix| + 1..];
      assert prefix + "/" + r == path;
      r
    else path
  }

  /** A path inside the directory comes back as its relative part. */
  lemma SkipPathPrefixInside(prefix: string, rel: string)
    ensures SkipPathPrefix(prefix + "/" + rel, prefix) == rel
  {
    assert prefix + "/" <= prefix + "/" + rel;
    assert (prefix + "/" + rel)[|prefix| + 1..] == rel;
  }

  /** A sibling directory that only shares the name's beginning is not stripped. */
  lemma SkipPathPrefixSibling()
    ensures SkipPathPrefix("/p/Assets2/a.cs", "/p/Assets") == "/p/Assets2/a.cs"
  {
    assert ("/p/Assets" + "/")[9] != "/p/Assets2/a.cs"[9];
  }

  /**
   * `EscapedRelativePathFor`: the asset's absolute path relative to the
   * project directory, XML-escaped. `fullPath` is `Path.GetFullPath` and
   * `normalize` the path normalisation of the editor; both are the host's.
   */
  function EscapedRelativePathFor(file: string, projectDirectory: string,
                                  fullPath: string -> string, normalize: string -> string): (r: string)
    ensures XmlUnescape(r) == SkipPathPrefix(fullPath(normalize(file)), fullPath(projectDirectory))
  {
    var path := SkipPathPrefix(fullPath(normalize(file)), fullPath(projectDirectory));
    XmlEscapeRoundTrip(path);
    XmlEscape(path)
  }

  /** The relative path is well-formed XML text: no raw special character, and every '&' begins an entity. */
  lemma EscapedRelativePathIsXmlText(file: string, projectDirectory: string,
                                     fullPath: string -> string, normalize: string -> string)
    ensures var r := EscapedRelativePathFor(file, projectDirectory, fullPath, normalize);
      forall i :: 0 <= i < |r| ==> !IsXmlSpecial(r[i]) || (r[i] == '&' && StartsEntity(r, i))
  {
  }

  /** An asset below the project directory is written relative to it. */
  lemma EscapedRelativePathInside(file: string, projectDirectory: string, rel: string,
                                  fullPath: string -> string, normalize: string -> string)
    requires fullPath(normalize(file)) == fullPath(projectDirectory) + "/" + rel
    ensures XmlUnescape(EscapedRelativePathFor(file, projectDirectory, fullPath, normalize)) == rel
  {
    SkipPathPrefixInside(fullPath(projectDirectory), rel);
  }
}
