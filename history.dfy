/** The standalone dashboard server's own logic: the detection history read from the
    folder of saved images (names, lanes, order, limit), the image route's file-name
    sanitising, and the fallback of the accident relay. Paths follow Windows rules, the
    platform of the configured output folder: `/` and `\` both separate, and a name may
    start with a drive such as `C:`. */
module History {
  import opened Wrappers
  import opened Text
  import opened Sequences

  // ------------------------------------------------------------ paths

  predicate IsSep(c: char) {
    c == '/' || c == '\\'
  }

  predicate NoSep(s: string) {
    forall k :: 0 <= k < |s| ==> !IsSep(s[k])
  }

  predicate HasDrive(p: string) {
    |p| >= 2 && p[1] == ':'
  }

  /** `ntpath.splitdrive`, without UNC shares: a leading `X:` is the drive. */
  function Drive(p: string): string {
    if HasDrive(p) then p[..2] else ""
  }

  function AfterDrive(p: string): string {
    if HasDrive(p) then p[2..] else p
  }

  /** The text after the last separator. */
  function AfterLastSep(s: string): string {
    if |s| == 0 then ""
    else if IsSep(s[|s| - 1]) then ""
    else AfterLastSep(s[..|s| - 1]) + [s[|s| - 1]]
  }

  /** The text after the last separator is a separator-free suffix. */
  lemma {:induction false} AfterLastSepSuffix(s: string)
    ensures NoSep(AfterLastSep(s)) && |AfterLastSep(s)| <= |s|
    ensures AfterLastSep(s) == s[|s| - |AfterLastSep(s)|..]
    decreases |s|
  {
    if |s| > 0 && !IsSep(s[|s| - 1]) {
      var init := s[..|s| - 1];
      AfterLastSepSuffix(init);
      var r := AfterLastSep(init);
      assert s[|s| - |r| - 1..] == init[|init| - |r|..] + [s[|s| - 1]];
    }
  }

  /** `os.path.basename`: the final component, after the drive and the last separator. */
  function Basename(p: string): string {
    AfterLastSep(AfterDrive(p))
  }

  /** `os.path.join(dir, name)`: an absolute `name` keeps only the drive of `dir`; a name on
      another drive replaces `dir` entirely; otherwise `name` is appended after a
      separator. */
  function JoinPath(dir: string, name: string): string {
    var rd, rp := Drive(dir), AfterDrive(dir);
    var pd, pp := Drive(name), AfterDrive(name);
    if |pp| > 0 && IsSep(pp[0]) then (if pd != "" || rd == "" then pd else rd) + pp
    else if pd != "" && ToLower(pd) != ToLower(rd) then name
    else (if pd != "" then pd else rd) + (if |rp| > 0 && !IsSep(rp[|rp| - 1]) then rp + "\\" else rp) + pp
  }

  /** The directory as a prefix for names inside it: itself, with a separator appended when
      it does not end with one. */
  function DirPrefix(dir: string): string {
    var rp := AfterDrive(dir);
    Drive(dir) + (if |rp| > 0 && !IsSep(rp[|rp| - 1]) then rp + "\\" else rp)
  }

  /** A plain name (no separator, no drive) is placed inside the directory. */
  lemma JoinPlainName(dir: string, name: string)
    requires NoSep(name) && !HasDrive(name)
    ensures JoinPath(dir, name) == DirPrefix(dir) + name
  {
  }

  /** A name without separators after a separator is the last component. */
  lemma {:induction false} AfterLastSepAppend(x: string, name: string)
    requires NoSep(name) && (|x| == 0 || IsSep(x[|x| - 1]))
    ensures AfterLastSep(x + name) == name
  {
    if |name| == 0 {
      assert x + name == x;
    } else {
      var init, last := name[..|name| - 1], name[|name| - 1];
      AfterLastSepAppend(x, init);
      assert name == init + [last];
      assert x + name == (x + init) + [last];
      AfterLastSepSnoc(x + init, last);
    }
  }

  lemma AfterLastSepSnoc(s: string, c: char)
    requires !IsSep(c)
    ensures AfterLastSep(s + [c]) == AfterLastSep(s) + [c]
  {
    assert (s + [c])[..|s|] == s;
  }

  /** The base name of a file joined into a directory is the file's name. */
  lemma BasenameOfJoin(dir: string, name: string)
    requires NoSep(name) && ':' !in name
    ensures Basename(JoinPath(dir, name)) == name
  {
    JoinPlainName(dir, name);
    var rp := AfterDrive(dir);
    var prefix := if |rp| > 0 && !IsSep(rp[|rp| - 1]) then rp + "\\" else rp;
    assert DirPrefix(dir) == Drive(dir) + prefix;
    var p := DirPrefix(dir) + name;
    if HasDrive(dir) {
      assert p == dir[..2] + (prefix + name);
      assert AfterDrive(p) == prefix + name;
    } else if |prefix| == 0 {
      assert p == name;
    } else {
      assert p == prefix + name;
      assert !HasDrive(p) by {
        if |p| >= 2 {
          if prefix == dir {
            if |dir| >= 2 {
              assert p[1] == dir[1];
            } else {
              assert p[1] == name[0];
            }
          } else {
            assert prefix == dir + "\\";
            if |dir| >= 2 {
              assert p[1] == dir[1];
            } else {
              assert p[1] == '\\';
            }
          }
        }
      }
    }
    AfterLastSepAppend(prefix, name);
  }

  /** `detection_image` as written: the base name of the requested name, joined to the
      output folder. */
  function ImagePathAsWritten(dir: string, filename: string): string {
    JoinPath(dir, Basename(filename))
  }

  /** A requested name `\D:x.jpg` has the base name `D:x.jpg`, which names a file on
      another drive: the joined path leaves the output folder. */
  lemma ImagePathEscapesFolder()
    ensures ImagePathAsWritten("C:\\out", "\\D:x.jpg") == "D:x.jpg"
  {
    var request, name := "\\D:x.jpg", "D:x.jpg";
    assert request == "\\" + name && !HasDrive(request);
    AfterLastSepAppend("\\", name);
    assert Basename(request) == name;
    assert Drive(name) == "D:" && AfterDrive(name) == "x.jpg";
    assert Drive("C:\\out") == "C:";
    assert ToLower("D:") == "d:" && ToLower("C:") == "c:";
  }

  /** The sanitised image path: the base name, refused when it still carries a drive (a
      colon), joined to the output folder. */
  function ImagePath(dir: string, filename: string): (r: Option<string>)
    ensures r.Some? ==> exists name :: r.value == DirPrefix(dir) + name && NoSep(name) && ':' !in name
    ensures r.None? <==> ':' in Basename(filename)
  {
    var safe := Basename(filename);
    if ':' in safe then None
    else
      assert !HasDrive(safe);
      AfterLastSepSuffix(AfterDrive(filename));
      JoinPlainName(dir, safe);
      Some(JoinPath(dir, safe))
  }

  /** What the image route answers. */
  datatype ImageReply = ServeFile(path: string) | NotFound

  /** `GET /api/history/image/{filename}` as written: the base name joined to the output
      folder is served when it names an existing file (`isFile` stands for the file
      system), 404 otherwise. */
  function DetectionImageAsWritten(dir: string, filename: string, isFile: string -> bool): (r: ImageReply)
    ensures r.ServeFile? <==> isFile(ImagePathAsWritten(dir, filename))
    ensures r.ServeFile? ==> r.path == ImagePathAsWritten(dir, filename)
  {
    var fpath := ImagePathAsWritten(dir, filename);
    if isFile(fpath) then ServeFile(fpath) else NotFound
  }

  /** As written, the route serves `D:x.jpg`, outside the output folder, for the request
      `\D:x.jpg` whenever that file exists. */
  lemma DetectionImageServesOtherDrive(isFile: string -> bool)
    requires isFile("D:x.jpg")
    ensures DetectionImageAsWritten("C:\\out", "\\D:x.jpg", isFile) == ServeFile("D:x.jpg")
  {
    ImagePathEscapesFolder();
  }

  /** The corrected route: like the route as written, but a base name that still holds a
      colon (a drive) is refused. */
  function DetectionImage(dir: string, filename: string, isFile: string -> bool): (r: ImageReply)
    ensures r.ServeFile? ==> ImagePath(dir, filename) == Some(r.path) && isFile(r.path)
    ensures r.ServeFile? ==> exists name :: r.path == DirPrefix(dir) + name && NoSep(name) && ':' !in name
    ensures r.NotFound? <==> ImagePath(dir, filename).None? || !isFile(ImagePath(dir, filename).value)
  {
    match ImagePath(dir, filename)
    case None => NotFound
    case Some(path) => if isFile(path) then ServeFile(path) else NotFound
  }

  /** The corrected route answers every request without a colon in its base name exactly
      as the route as written does, and refuses the others. */
  lemma DetectionImageCorrectsOnlyColons(dir: string, filename: string, isFile: string -> bool)
    ensures ':' !in Basename(filename) ==> DetectionImage(dir, filename, isFile) == DetectionImageAsWritten(dir, filename, isFile)
    ensures ':' in Basename(filename) ==> DetectionImage(dir, filename, isFile) == NotFound
  {
  }

  // ------------------------------------------------------------ lanes

  /** The lane of the first part that starts with `lane`, with `lane` removed; `?` when
      no part does. */
  function FirstLane(parts: seq<string>): string {
    if |parts| == 0 then "?"
    else if "lane" <= parts[0] then RemoveAll(parts[0], "lane")
    else FirstLane(parts[1..])
  }

  /** `FirstLane` reads the first part that names a lane, and only that one. */
  lemma {:induction false} FirstLaneFirstMatch(parts: seq<string>)
    ensures (forall k :: 0 <= k < |parts| ==> !("lane" <= parts[k])) ==> FirstLane(parts) == "?"
    ensures forall k :: 0 <= k < |parts| && "lane" <= parts[k] && (forall j :: 0 <= j < k ==> !("lane" <= parts[j]))
                        ==> FirstLane(parts) == RemoveAll(parts[k], "lane")
  {
    if |parts| > 0 && !("lane" <= parts[0]) {
      FirstLaneFirstMatch(parts[1..]);
      assert forall k :: 1 <= k < |parts| ==> parts[1..][k - 1] == parts[k];
    }
  }

  /** The lane named in a file name: its `.jpg` removed, split at `_`. */
  function LaneOf(fname: string): string {
    FirstLane(Split(RemoveAll(fname, ".jpg"), '_'))
  }

  /** The loop with `break` over the parts of the name. */
  method ParseLane(fname: string) returns (lane: string)
    ensures lane == LaneOf(fname)
  {
    lane := "?";
    var parts := Split(RemoveAll(fname, ".jpg"), '_');
    var i := 0;
    while i < |parts|
      invariant 0 <= i <= |parts|
      invariant lane == "?"
      invariant FirstLane(parts[i..]) == FirstLane(parts)
    {
      if "lane" <= parts[i] {
        lane := RemoveAll(parts[i], "lane");
        break;
      }
      assert parts[i..][1..] == parts[i + 1..];
      i := i + 1;
    }
  }

  /** Removing a pattern from text that does not hold the pattern's first character
      leaves that text in front. */
  lemma {:induction false} RemoveAllFreeHead(s: string, tail: string, pat: string)
    requires |pat| > 0 && pat[0] !in s
    ensures RemoveAll(s + tail, pat) == s + RemoveAll(tail, pat)
  {
    if |s| > 0 {
      var t := s + tail;
      assert t[0] == s[0] != pat[0];
      assert !(pat <= t);
      assert t[1..] == s[1..] + tail;
      RemoveAllFreeHead(s[1..], tail, pat);
      assert s == [s[0]] + s[1..];
    } else {
      assert s + tail == tail;
    }
  }

  lemma SavedNameStem()
    ensures RemoveAll("accident_lane3_20260205_142315_123.jpg", ".jpg") == "accident_lane3_20260205_142315_123"
  {
    var stem := "accident_lane3_20260205_142315_123";
    assert "accident_lane3_20260205_142315_123.jpg" == stem + ".jpg";
    RemoveAllFreeHead(stem, ".jpg", ".jpg");
    assert RemoveAll(".jpg", ".jpg") == RemoveAll("", ".jpg") == "";
    assert stem + "" == stem;
  }

  lemma SavedNameParts()
    ensures Split("accident_lane3_20260205_142315_123", '_') == ["accident", "lane3", "20260205", "142315", "123"]
  {
    var parts := ["accident", "lane3", "20260205", "142315", "123"];
    SavedNameJoin();
    assert forall k :: 0 <= k < |parts| ==> '_' !in parts[k] by {
      assert '_' !in parts[0] && '_' !in parts[1] && '_' !in parts[2];
      assert '_' !in parts[3] && '_' !in parts[4];
    }
    SplitJoin(parts, '_');
  }

  lemma SavedNameJoin()
    ensures Join(["accident", "lane3", "20260205", "142315", "123"], '_') == "accident_lane3_20260205_142315_123"
  {
    var p3 := ["142315", "123"];
    var p2 := ["20260205"] + p3;
    var p1 := ["lane3"] + p2;
    JoinCons("142315", ["123"], '_');
    JoinCons("20260205", p3, '_');
    JoinCons("lane3", p2, '_');
    JoinCons("accident", p1, '_');
    assert ["accident"] + p1 == ["accident", "lane3", "20260205", "142315", "123"];
  }

  /** The file names the saving side writes give their lane number. */
  lemma LaneOfSavedName()
    ensures LaneOf("accident_lane3_20260205_142315_123.jpg") == "3"
  {
    SavedNameStem();
    SavedNameParts();
    SavedNameLane();
  }

  lemma SavedNameLane()
    ensures FirstLane(["accident", "lane3", "20260205", "142315", "123"]) == "3"
  {
    var parts := ["accident", "lane3", "20260205", "142315", "123"];
    assert parts[0][1] == 'c' && "lane"[1] == 'a';
    assert parts[1] == "lane" + "3";
    assert parts[1..][0] == "lane3";
    assert RemoveAll("lane3", "lane") == RemoveAll("3", "lane") == "3";
  }

  // ------------------------------------------------------------ history

  /** A directory entry as the file system reports it. */
  datatype DirEntry = DirEntry(name: string, mtime: int)

  /** A file `glob` found: its joined path and its modification time. */
  datatype FoundFile = FoundFile(path: string, mtime: int)

  /** One history record; the formatted times are left out. */
  datatype HistoryEntry = HistoryEntry(filename: string, path: string, lane: string, mtime: int)

  predicate EndsWith(s: string, suffix: string) {
    |suffix| <= |s| && s[|s| - |suffix|..] == suffix
  }

  /** The pattern `*.jpg`: a name ending in `.jpg` (case-insensitively, as on Windows) that
      does not start with a dot. */
  predicate MatchesJpg(e: DirEntry) {
    |e.name| > 0 && e.name[0] != '.' && EndsWith(ToLower(e.name), ".jpg")
  }

  /** `glob.glob(os.path.join(dir, "*.jpg"))`, in directory order. */
  function Glob(dir: string, entries: seq<DirEntry>): (r: seq<FoundFile>)
    ensures |r| == |Keep(entries, MatchesJpg)|
    ensures forall k :: 0 <= k < |r| ==>
              r[k] == FoundFile(JoinPath(dir, Keep(entries, MatchesJpg)[k].name), Keep(entries, MatchesJpg)[k].mtime)
  {
    var jpgs := Keep(entries, MatchesJpg);
    seq(|jpgs|, k requires 0 <= k < |jpgs| => FoundFile(JoinPath(dir, jpgs[k].name), jpgs[k].mtime))
  }

  function Mtime(f: FoundFile): int { f.mtime }

  /** Python's `s[:limit]`: a negative limit drops that many from the end. */
  function PrefixSlice<T>(s: seq<T>, limit: int): (r: seq<T>)
    ensures r <= s
    ensures limit >= 0 ==> |r| == Min(limit, |s|)
    ensures limit < 0 ==> |r| == (if |s| + limit > 0 then |s| + limit else 0)
  {
    if limit >= 0 then Take(s, limit)
    else if |s| + limit > 0 then s[..|s| + limit] else []
  }

  /** The files of the history: sorted newest first (stably), then sliced. */
  function HistoryFiles(dir: string, entries: seq<DirEntry>, limit: int): seq<FoundFile> {
    PrefixSlice(SortDesc(Glob(dir, entries), Mtime), limit)
  }

  function EntryFor(f: FoundFile): HistoryEntry {
    var fname := Basename(f.path);
    HistoryEntry(fname, f.path, LaneOf(fname), f.mtime)
  }

  /** `get_detection_history`: nothing for a missing folder; otherwise one record per
      selected file, in order. */
  method GetDetectionHistory(dir: string, dirExists: bool, entries: seq<DirEntry>, limit: int)
    returns (history: seq<HistoryEntry>)
    ensures !dirExists ==> history == []
    ensures dirExists ==> |history| == |HistoryFiles(dir, entries, limit)|
    ensures dirExists ==> forall k :: 0 <= k < |history| ==> history[k] == EntryFor(HistoryFiles(dir, entries, limit)[k])
  {
    if !dirExists {
      return [];
    }
    history := HistoryRecords(HistoryFiles(dir, entries, limit));
  }

  /** The loop of `get_detection_history` that appends one record per file: its base
      name, its path, the lane parsed from the name and its time. */
  method HistoryRecords(files: seq<FoundFile>) returns (history: seq<HistoryEntry>)
    ensures |history| == |files|
    ensures forall k :: 0 <= k < |files| ==> history[k] == EntryFor(files[k])
  {
    history := [];
    for i := 0 to |files|
      invariant |history| == i
      invariant forall k :: 0 <= k < i ==> history[k] == EntryFor(files[k])
    {
      var fpath := files[i].path;
      var fname := Basename(fpath);
      var lane := ParseLane(fname);
      history := history + [HistoryEntry(fname, fpath, lane, files[i].mtime)];
    }
  }

  /** The history holds at most `limit` files, newest first. */
  lemma HistoryFilesBounded(dir: string, entries: seq<DirEntry>, limit: int)
    ensures limit >= 0 ==> |HistoryFiles(dir, entries, limit)| <= limit
    ensures SortedDesc(HistoryFiles(dir, entries, limit), Mtime)
  {
    var sorted := SortDesc(Glob(dir, entries), Mtime);
    var files := HistoryFiles(dir, entries, limit);
    assert files == sorted[..|files|];
  }

  /** Every history file is a `.jpg` of the folder, and none left out is newer than one
      kept. */
  lemma HistoryFilesNewest(dir: string, entries: seq<DirEntry>, limit: int)
    ensures forall f :: f in HistoryFiles(dir, entries, limit) ==> f in Glob(dir, entries)
    ensures forall f, g ::
              f in Glob(dir, entries) && f !in HistoryFiles(dir, entries, limit) && g in HistoryFiles(dir, entries, limit)
              ==> f.mtime <= g.mtime
  {
    var found := Glob(dir, entries);
    var sorted := SortDesc(found, Mtime);
    var files := HistoryFiles(dir, entries, limit);
    assert files == sorted[..|files|];
    forall f | f in files ensures f in found {
      assert f in multiset(sorted);
    }
    forall f, g | f in found && f !in files && g in files ensures f.mtime <= g.mtime {
      assert f in multiset(sorted);
      PrefixHoldsLargest(sorted, |files|, Mtime, f, g);
    }
  }

  /** Every history record names a file of the folder, with the lane its name gives. */
  lemma HistoryEntryNames(dir: string, e: DirEntry)
    requires NoSep(e.name) && ':' !in e.name
    ensures EntryFor(FoundFile(JoinPath(dir, e.name), e.mtime)).filename == e.name
    ensures EntryFor(FoundFile(JoinPath(dir, e.name), e.mtime)).lane == LaneOf(e.name)
  {
    BasenameOfJoin(dir, e.name);
  }

  // ------------------------------------------------------------ accident relay

  /** The accident state the detection backend reports. */
  datatype AccidentFeed = AccidentFeed(status: bool, frame: string, laneId: Option<int>, confidence: real,
                                       error: Option<string>)

  /** `GET /api/accident`: the backend's reply, or when the request fails a feed that
      reports no accident and carries the error. */
  function ProxyAccident(reply: Result<AccidentFeed, string>): (r: AccidentFeed)
    ensures reply.Ok? ==> r == reply.value
    ensures reply.Err? ==> !r.status && r.frame == "" && r.laneId.None? && r.confidence == 0.0
    ensures reply.Err? ==> r.error == Some(reply.error)
  {
    match reply
    case Ok(feed) => feed
    case Err(e) => AccidentFeed(false, "", None, 0.0, Some(e))
  }
}
