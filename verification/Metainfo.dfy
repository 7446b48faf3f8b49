/** Opening a torrent file (src/metainfo.rs, `from_bytes` and `parse_multi_file`). */
module Metainfo {
  import opened Bytes
  import opened Decimals
  import opened Bencode
  import opened BencodeParser
  import opened Layouts

  // ----- looking into dictionaries

  /** `as_string`: bytes that are valid UTF-8. */
  function AsString(lossy: Bytes -> Bytes, v: Value): Option<Bytes> {
    if v.ByteString? && lossy(v.s) == v.s then Some(v.s) else None
  }

  function StringAt(lossy: Bytes -> Bytes, entries: seq<Entry>, key: Bytes): Option<Bytes> {
    match Get(entries, key) case None => None case Some(v) => AsString(lossy, v)
  }

  function IntegerAt(entries: seq<Entry>, key: Bytes): Option<int> {
    match Get(entries, key) case None => None case Some(v) => v.AsInteger()
  }

  function BytesAt(entries: seq<Entry>, key: Bytes): Option<Bytes> {
    match Get(entries, key) case None => None case Some(v) => v.AsBytes()
  }

  function ListAt(entries: seq<Entry>, key: Bytes): Option<seq<Value>> {
    match Get(entries, key) case None => None case Some(v) => v.AsList()
  }

  /** The items that are strings; others are passed over. */
  function StringsIn(lossy: Bytes -> Bytes, items: seq<Value>): seq<Bytes> {
    if items == [] then []
    else
      StringsIn(lossy, items[..|items| - 1])
      + match AsString(lossy, items[|items| - 1]) case None => [] case Some(s) => [s]
  }

  /** The items that are lists, each with its strings. */
  function TiersIn(lossy: Bytes -> Bytes, items: seq<Value>): seq<seq<Bytes>> {
    if items == [] then []
    else
      TiersIn(lossy, items[..|items| - 1])
      + match items[|items| - 1].AsList() case None => [] case Some(l) => [StringsIn(lossy, l)]
  }

  lemma {:induction false} StringsJoin(lossy: Bytes -> Bytes, a: seq<Value>, b: seq<Value>)
    ensures StringsIn(lossy, a + b) == StringsIn(lossy, a) + StringsIn(lossy, b)
    decreases |b|
  {
    hide AsString;
    if b == [] {
      assert a + b == a;
    } else {
      var n := |b| - 1;
      assert (a + b)[..|a + b| - 1] == a + b[..n] && (a + b)[|a + b| - 1] == b[n];
      StringsJoin(lossy, a, b[..n]);
    }
  }

  lemma {:induction false} TiersJoin(lossy: Bytes -> Bytes, a: seq<Value>, b: seq<Value>)
    ensures TiersIn(lossy, a + b) == TiersIn(lossy, a) + TiersIn(lossy, b)
    decreases |b|
  {
    hide StringsIn;
    if b == [] {
      assert a + b == a;
    } else {
      var n := |b| - 1;
      assert (a + b)[..|a + b| - 1] == a + b[..n] && (a + b)[|a + b| - 1] == b[n];
      TiersJoin(lossy, a, b[..n]);
    }
  }

  /** Trackers that are no valid text are passed over, and so are tiers that are no lists. */
  lemma OthersAreSkipped(lossy: Bytes -> Bytes, before: seq<Value>, other: Value, after: seq<Value>)
    ensures (other.ByteString? ==> lossy(other.s) != other.s) ==>
      StringsIn(lossy, before + [other] + after) == StringsIn(lossy, before) + StringsIn(lossy, after)
    ensures !other.List? ==>
      TiersIn(lossy, before + [other] + after) == TiersIn(lossy, before) + TiersIn(lossy, after)
  {
    hide StringsIn, TiersIn;
    StringsJoin(lossy, before + [other], after);
    StringsJoin(lossy, before, [other]);
    TiersJoin(lossy, before + [other], after);
    TiersJoin(lossy, before, [other]);
    OtherAlone(lossy, other);
  }

  lemma OtherAlone(lossy: Bytes -> Bytes, other: Value)
    ensures (other.ByteString? ==> lossy(other.s) != other.s) ==> StringsIn(lossy, [other]) == []
    ensures !other.List? ==> TiersIn(lossy, [other]) == []
  {
    assert [other][..0] == [];
  }

  // ----- the file list

  const SLASH: byte := 47
  const BACKSLASH: byte := 92
  const DOT: byte := 46

  /** A path component that stays inside its directory. */
  predicate PlainComponent(part: Bytes) {
    && SLASH !in part && BACKSLASH !in part && 0 !in part
    && forall i :: 0 <= i < |part| - 1 ==> !(part[i] == DOT && part[i + 1] == DOT)
  }

  ghost predicate OccursAt(part: Bytes, s: Bytes, i: nat) {
    i + |s| <= |part| && part[i..i + |s|] == s
  }

  ghost predicate Contains(part: Bytes, s: Bytes) {
    exists i: nat :: OccursAt(part, s, i)
  }

  /** No separator of any system, no end of a C string, and no way up. */
  lemma PlainMeans(part: Bytes)
    ensures PlainComponent(part) <==>
      && !Contains(part, Ascii("/")) && !Contains(part, Ascii("\\")) && !Contains(part, [0])
      && !Contains(part, Ascii(".."))
  {
    ContainsOne(part, Ascii("/"));
    ContainsOne(part, Ascii("\\"));
    ContainsOne(part, [0]);
    if i: nat :| OccursAt(part, Ascii(".."), i) {
      assert part[i] == part[i..i + 2][0] == DOT && part[i + 1] == part[i..i + 2][1] == DOT;
    } else {
      forall i | 0 <= i < |part| - 1 ensures !(part[i] == DOT && part[i + 1] == DOT) {
        assert !OccursAt(part, Ascii(".."), i);
        assert part[i..i + 2] == [part[i], part[i + 1]];
      }
    }
  }

  lemma ContainsOne(part: Bytes, s: Bytes)
    requires |s| == 1
    ensures Contains(part, s) <==> s[0] in part
  {
    if i: nat :| OccursAt(part, s, i) {
      assert part[i] == part[i..i + 1][0];
    }
    if s[0] in part {
      var i :| 0 <= i < |part| && part[i] == s[0];
      assert OccursAt(part, s, i);
    }
  }

  function JoinPath(base: Bytes, parts: seq<Bytes>): Bytes {
    if parts == [] then base else JoinPath(base, parts[..|parts| - 1]) + [SLASH] + parts[|parts| - 1]
  }

  function LengthOf(file: Value): Option<int> {
    if file.Dict? then IntegerAt(file.entries, Ascii("length")) else None
  }

  function PathOf(file: Value): Option<seq<Value>> {
    if file.Dict? then ListAt(file.entries, Ascii("path")) else None
  }

  /** What is asked of an entry of the file list. */
  ghost predicate FileOk(lossy: Bytes -> Bytes, file: Value) {
    && LengthOf(file).Some? && PathOf(file).Some?
    && forall p :: p in StringsIn(lossy, PathOf(file).value) ==> PlainComponent(p)
  }

  /** The file made of an entry, apart from where it starts. */
  ghost predicate Describes(lossy: Bytes -> Bytes, baseName: Bytes, item: Value, file: FileInfo) {
    && FileOk(lossy, item)
    && file.length == AsUsize(LengthOf(item).value)
    && file.path == JoinPath(baseName, StringsIn(lossy, PathOf(item).value))
  }

  /** The files of the list, each where the one before it ends. */
  ghost function FileList(lossy: Bytes -> Bytes, items: seq<Value>, baseName: Bytes): Option<seq<FileInfo>> {
    if items == [] then Some([])
    else
      var n := |items| - 1;
      var before := FileList(lossy, items[..n], baseName);
      if before.None? || !FileOk(lossy, items[n]) then None
      else Some(before.value + [FileOf(lossy, items[n], baseName, TotalSize(before.value))])
  }

  ghost function FileOf(lossy: Bytes -> Bytes, item: Value, baseName: Bytes, offset: nat): FileInfo
    requires FileOk(lossy, item)
  {
    var path := JoinPath(baseName, StringsIn(lossy, PathOf(item).value));
    FileInfo(path, AsUsize(LengthOf(item).value), offset)
  }

  /** There is a file list exactly when every entry is in order; the files then lie end to end
      in list order, each with its own length and path. */
  lemma {:induction false} FileListIs(lossy: Bytes -> Bytes, items: seq<Value>, baseName: Bytes)
    ensures FileList(lossy, items, baseName).Some? <==> forall i :: 0 <= i < |items| ==> FileOk(lossy, items[i])
    ensures FileList(lossy, items, baseName).Some? ==> var files := FileList(lossy, items, baseName).value;
      && |files| == |items| && Contiguous(files)
      && forall i :: 0 <= i < |files| ==> Describes(lossy, baseName, items[i], files[i])
    decreases |items|
  {
    hide FileOk, Contiguous, TotalSize;
    if items == [] {
      NoFiles();
    } else {
      var n := |items| - 1;
      FileListIs(lossy, items[..n], baseName);
      assert items == items[..n] + [items[n]];
      if FileList(lossy, items, baseName).Some? {
        var before := FileList(lossy, items[..n], baseName).value;
        NextFile(before, FileOf(lossy, items[n], baseName, TotalSize(before)));
      }
    }
  }

  method ParseMultiFile(lossy: Bytes -> Bytes, filesVal: Value, baseName: Bytes)
    returns (r: Result<(seq<FileInfo>, nat)>)
    ensures r.Success? <==> filesVal.List? && forall i :: 0 <= i < |filesVal.items| ==> FileOk(lossy, filesVal.items[i])
    ensures r.Success? ==> var (files, total) := r.value;
      FileList(lossy, filesVal.items, baseName) == Some(files) && total == TotalSize(files)
  {
    hide LengthOf, PathOf, PlainComponent, AsUsize, Contiguous, TotalSize, JoinPath, StringsIn;
    if !filesVal.List? {
      return Failure("files not a list");
    }
    var items := filesVal.items;
    var files: seq<FileInfo> := [];
    var offset := 0;
    NoFiles();
    for n := 0 to |items|
      invariant FileList(lossy, items[..n], baseName) == Some(files)
      invariant Contiguous(files) && offset == TotalSize(files)
      invariant forall i :: 0 <= i < n ==> FileOk(lossy, items[i])
    {
      assert items[..n + 1][..n] == items[..n];
      var length := LengthOf(items[n]);
      if length.None? {
        return Failure("Missing file length");
      }
      var path := PathOf(items[n]);
      if path.None? {
        return Failure("Missing file path");
      }
      var fullPath := BuildPath(baseName, StringsIn(lossy, path.value));
      if fullPath.None? {
        return Failure("Invalid path component in torrent file");
      }
      var file := FileInfo(fullPath.value, AsUsize(length.value), offset);
      NextFile(files, file);
      files := files + [file];
      offset := offset + AsUsize(length.value);
    }
    assert items[..|items|] == items;
    return Success((files, offset));
  }

  lemma NoFiles()
    ensures Contiguous([]) && TotalSize([]) == 0
  {
  }

  lemma NextFile(files: seq<FileInfo>, file: FileInfo)
    requires Contiguous(files) && file.offset == TotalSize(files)
    ensures Contiguous(files + [file]) && TotalSize(files + [file]) == TotalSize(files) + file.length
  {
  }

  /** The inner loop: appends the components unless one is not plain. */
  method BuildPath(baseName: Bytes, parts: seq<Bytes>) returns (r: Option<Bytes>)
    ensures r == if forall p :: p in parts ==> PlainComponent(p) then Some(JoinPath(baseName, parts)) else None
  {
    hide PlainComponent;
    var fullPath := baseName;
    for k := 0 to |parts|
      invariant forall j :: 0 <= j < k ==> PlainComponent(parts[j])
      invariant fullPath == JoinPath(baseName, parts[..k])
    {
      if !PlainComponent(parts[k]) {
        return None;
      }
      assert parts[..k + 1][..k] == parts[..k];
      fullPath := fullPath + [SLASH] + parts[k];
    }
    assert parts[..|parts|] == parts;
    return Some(fullPath);
  }

  function SplitAtSlash(path: Bytes): seq<Bytes> {
    if path == [] then [[]]
    else
      var rest := SplitAtSlash(path[..|path| - 1]);
      var last := path[|path| - 1];
      if last == SLASH then rest + [[]]
      else if rest == [] then [[last]]
      else rest[..|rest| - 1] + [rest[|rest| - 1] + [last]]
  }

  lemma {:induction false} SplitLonger(path: Bytes, part: Bytes)
    requires SLASH !in part
    ensures SplitAtSlash(path + [SLASH] + part) == SplitAtSlash(path) + [part]
    decreases |part|
  {
    var all := path + [SLASH] + part;
    if part == [] {
      assert all[..|all| - 1] == path;
    } else {
      var n := |part| - 1;
      assert all[..|all| - 1] == path + [SLASH] + part[..n];
      SplitLonger(path, part[..n]);
      assert part == part[..n] + [part[n]];
    }
  }

  lemma PlainHasNoSlash(part: Bytes)
    requires PlainComponent(part)
    ensures SLASH !in part
  {
  }

  /** The components of an accepted file's path are those of the base name and then its
      own, one for one, so distinct component lists have distinct paths. */
  lemma {:induction false} PathSplitsBack(base: Bytes, parts: seq<Bytes>)
    requires forall p :: p in parts ==> PlainComponent(p)
    ensures SplitAtSlash(JoinPath(base, parts)) == SplitAtSlash(base) + parts
  {
    if parts != [] {
      hide PlainComponent, SplitAtSlash;
      var n := |parts| - 1;
      assert parts[n] in parts;
      PlainHasNoSlash(parts[n]);
      PathSplitsBack(base, parts[..n]);
      SplitLonger(JoinPath(base, parts[..n]), parts[n]);
      assert parts == parts[..n] + [parts[n]];
    }
  }

  // ----- the whole torrent

  /** What the info dictionary says. */
  datatype Torrent = Torrent(
    name: Bytes,
    pieceLength: nat,
    pieces: seq<Bytes>,
    files: seq<FileInfo>,
    totalSize: nat,
    isPrivate: bool)

  datatype MetaInfo = MetaInfo(
    infoHash: Bytes,
    torrent: Torrent,
    announce: Option<Bytes>,
    announceList: seq<seq<Bytes>>,
    urlList: seq<Bytes>,
    comment: Option<Bytes>,
    createdBy: Option<Bytes>,
    creationDate: Option<int>)

  function Hashes(raw: Bytes): (r: seq<Bytes>)
    ensures |r| == |raw| / 20 && forall i :: 0 <= i < |r| ==> r[i] == raw[20 * i..20 * i + 20]
  {
    seq(|raw| / 20, i requires 0 <= i < |raw| / 20 => raw[20 * i..20 * i + 20])
  }

  function NameIn(lossy: Bytes -> Bytes, info: seq<Entry>): Bytes {
    match StringAt(lossy, info, Ascii("name")) case None => Ascii("unknown") case Some(s) => s
  }

  /** Many files, or one with the name and length of the torrent. */
  ghost function FilesIn(lossy: Bytes -> Bytes, info: seq<Entry>): Option<seq<FileInfo>> {
    match Get(info, Ascii("files"))
    case Some(v) => if v.List? then FileList(lossy, v.items, NameIn(lossy, info)) else None
    case None =>
      match IntegerAt(info, Ascii("length"))
      case None => None
      case Some(n) => Some([FileInfo(NameIn(lossy, info), AsUsize(n), 0)])
  }

  ghost function TorrentIn(lossy: Bytes -> Bytes, info: seq<Entry>): Option<Torrent> {
    var length, raw := IntegerAt(info, Ascii("piece length")), BytesAt(info, Ascii("pieces"));
    var files := FilesIn(lossy, info);
    if length.None? || raw.None? || |raw.value| % 20 != 0 || files.None? then None
    else Some(Torrent(NameIn(lossy, info), AsUsize(length.value), Hashes(raw.value), files.value,
      TotalSize(files.value), IntegerAt(info, Ascii("private")) == Some(1)))
  }

  function TiersAt(lossy: Bytes -> Bytes, root: seq<Entry>): seq<seq<Bytes>> {
    match ListAt(root, Ascii("announce-list")) case None => [] case Some(l) => TiersIn(lossy, l)
  }

  function UrlsAt(lossy: Bytes -> Bytes, root: seq<Entry>): seq<Bytes> {
    match ListAt(root, Ascii("url-list")) case None => [] case Some(l) => StringsIn(lossy, l)
  }

  ghost function MetaInfoIn(lossy: Bytes -> Bytes, infoHash: Bytes, root: seq<Entry>): Option<MetaInfo> {
    match Get(root, Ascii("info"))
    case None => None
    case Some(info) =>
      if !info.Dict? then None
      else match TorrentIn(lossy, info.entries)
        case None => None
        case Some(torrent) => Some(MetaInfo(infoHash, torrent,
          StringAt(lossy, root, Ascii("announce")), TiersAt(lossy, root), UrlsAt(lossy, root),
          StringAt(lossy, root, Ascii("comment")), StringAt(lossy, root, Ascii("created by")),
          IntegerAt(root, Ascii("creation date"))))
  }

  /** What `data` opens to. */
  ghost function Opened(lossy: Bytes -> Bytes, sha1: Bytes -> Bytes, data: Bytes): Option<MetaInfo> {
    match InfoRaw(lossy, data)
    case None => None
    case Some(infoRaw) =>
      match Parse(lossy, data)
      case None => None
      case Some(root) => if root.Dict? then MetaInfoIn(lossy, sha1(infoRaw), root.entries) else None
  }

  /** `from_bytes` */
  method FromBytes(lossy: Bytes -> Bytes, sha1: Bytes -> Bytes, data: Bytes) returns (r: Result<MetaInfo>)
    ensures r.Success? <==> Opened(lossy, sha1, data).Some?
    ensures r.Success? ==> Opened(lossy, sha1, data) == Some(r.value)
  {
    hide Parse, InfoRaw, FilesIn, TotalSize, Hashes, AsUsize, Ascii, TiersAt, UrlsAt;
    var infoRaw := ExtractInfoRaw(lossy, data);
    if infoRaw.None? {
      return Failure("No info dict found");
    }
    var infoHash := sha1(infoRaw.value);
    var root := Parse(lossy, data);
    if root.None? || !root.value.Dict? {
      return Failure("Root not a dict");
    }
    var rootDict := root.value.entries;
    var announce := StringAt(lossy, rootDict, Ascii("announce"));
    var announceList, urlList := TiersAt(lossy, rootDict), UrlsAt(lossy, rootDict);
    var comment := StringAt(lossy, rootDict, Ascii("comment"));
    var createdBy := StringAt(lossy, rootDict, Ascii("created by"));
    var creationDate := IntegerAt(rootDict, Ascii("creation date"));
    var info := Get(rootDict, Ascii("info"));
    if info.None? || !info.value.Dict? {
      return Failure("info not a dict");
    }
    var infoDict := info.value.entries;
    var name := NameIn(lossy, infoDict);
    var pieceLength, piecesRaw := IntegerAt(infoDict, Ascii("piece length")), BytesAt(infoDict, Ascii("pieces"));
    if pieceLength.None? {
      return Failure("Missing piece length");
    }
    if piecesRaw.None? || |piecesRaw.value| % 20 != 0 {
      return Failure("Invalid pieces length");
    }
    var isPrivate := IntegerAt(infoDict, Ascii("private")) == Some(1);
    var files := ReadFiles(lossy, infoDict, name);
    if files.Failure? {
      return Failure(files.error);
    }
    var pieces := Hashes(piecesRaw.value);
    var torrent := Torrent(name, AsUsize(pieceLength.value), pieces, files.value.0, files.value.1, isPrivate);
    return Success(MetaInfo(infoHash, torrent, announce, announceList, urlList, comment, createdBy, creationDate));
  }

  method ReadFiles(lossy: Bytes -> Bytes, info: seq<Entry>, name: Bytes) returns (r: Result<(seq<FileInfo>, nat)>)
    requires name == NameIn(lossy, info)
    ensures r.Success? <==> FilesIn(lossy, info).Some?
    ensures r.Success? ==> FilesIn(lossy, info) == Some(r.value.0) && r.value.1 == TotalSize(r.value.0)
  {
    hide NameIn, AsUsize, Ascii, FileList;
    var filesVal := Get(info, Ascii("files"));
    if filesVal.Some? {
      r := ParseMultiFile(lossy, filesVal.value, name);
      if filesVal.value.List? {
        FileListIs(lossy, filesVal.value.items, name);
      }
      return;
    }
    var length := IntegerAt(info, Ascii("length"));
    if length.None? {
      return Failure("Missing length");
    }
    return Success(([FileInfo(name, AsUsize(length.value), 0)], AsUsize(length.value)));
  }

  /** Every torrent that opens has the layout the storage and the pieces rely on: files end to
      end, their total as declared, and hashes of twenty bytes. */
  lemma OpenedIsLaidOut(lossy: Bytes -> Bytes, sha1: Bytes -> Bytes, data: Bytes)
    requires Opened(lossy, sha1, data).Some?
    ensures var t := Opened(lossy, sha1, data).value.torrent;
      && Contiguous(t.files) && t.totalSize == TotalSize(t.files)
      && forall i :: 0 <= i < |t.pieces| ==> |t.pieces[i]| == 20
  {
    hide InfoRaw, Parse, Ascii, AsUsize, TotalSize, FileList;
    var info := Get(Parse(lossy, data).value.entries, Ascii("info")).value.entries;
    match Get(info, Ascii("files"))
    case None =>
    case Some(v) => FileListIs(lossy, v.items, NameIn(lossy, info));
  }
}
