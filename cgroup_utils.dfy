/**
 * The parsing and decision logic of cgroup-utils.c: /proc/self/cgroup entries, the unified
 * cgroup of the current process, the detection of the cgroup layout and its cache, the
 * filling of a pid array from a cgroup.procs buffer, and which hierarchies destroy_cgroup_path
 * visits. File contents and statfs results are inputs; the paths built with append_paths
 * are not part of this model.
 */
module CgroupUtils {
  import opened Wrappers
  import opened Strings
  import opened CgroupInternal

  // ---------------------------------------------------------------------------
  // /proc/self/cgroup
  // ---------------------------------------------------------------------------

  /** One line of /proc/<pid>/cgroup: hierarchy id, controller list and cgroup path. */
  datatype ProcCgroupEntry = ProcCgroupEntry(id: string, controllers: string, path: string)

  /** A line cut at its first two ':'; the path keeps any later ':'. */
  function SplitEntry(line: string): (r: Option<ProcCgroupEntry>)
    ensures r.Some? ==> ':' !in r.value.id && ':' !in r.value.controllers
  {
    match IndexOf(line, ':')
    case None => None
    case Some(i) =>
      var tail := line[i + 1..];
      match IndexOf(tail, ':')
      case None => None
      case Some(j) => Some(ProcCgroupEntry(line[..i], tail[..j], tail[j + 1..]))
  }

  /** The id and the controller list hold no ':', and the three fields put back together are the line. */
  lemma SplitEntryJoins(line: string)
    ensures SplitEntry(line).Some? ==>
      var e := SplitEntry(line).value;
      ':' !in e.id && ':' !in e.controllers && e.id + ":" + e.controllers + ":" + e.path == line
  {
    var first := IndexOf(line, ':');
    if first.Some? {
      var i := first.value;
      var tail := line[i + 1..];
      var second := IndexOf(tail, ':');
      if second.Some? {
        var j := second.value;
        SplitEntryAt(line, i, j);
        JoinCuts(line, i, j);
      }
    }
  }

  /** The first `x` in `s` adds one to the count of `x` in what follows it. */
  lemma FirstOccurrenceCount<T>(s: seq<T>, i: nat, x: T)
    requires i < |s| && s[i] == x && x !in s[..i]
    ensures multiset(s)[x] == 1 + multiset(s[i + 1..])[x]
  {
    NoneEqualCount(s[..i], x);
    assert s == s[..i] + [x] + s[i + 1..];
  }

  /** A line is given back by joining with ':' the three parts two of its ':' cut it into. */
  lemma JoinCuts(line: string, i: nat, j: nat)
    requires i < |line| && line[i] == ':'
    requires j < |line[i + 1..]| && line[i + 1..][j] == ':'
    ensures line[..i] + ":" + line[i + 1..][..j] + ":" + line[i + 1..][j + 1..] == line
  {
    var tail := line[i + 1..];
    assert tail[..j] + ":" + tail[j + 1..] == tail;
    assert line[..i] + ":" + tail == line;
    assert line[..i] + ":" + tail[..j] + ":" + tail[j + 1..] == line[..i] + ":" + (tail[..j] + ":" + tail[j + 1..]);
  }

  /** read_proc_cgroup refuses exactly the lines with fewer than two ':'. */
  lemma SplitEntryNeedsTwoColons(line: string)
    ensures SplitEntry(line).None? <==> multiset(line)[':'] < 2
  {
    match IndexOf(line, ':')
    case None =>
      NoneEqualCount(line, ':');
    case Some(i) =>
      var tail := line[i + 1..];
      FirstOccurrenceCount(line, i, ':');
      match IndexOf(tail, ':')
      case None =>
        NoneEqualCount(tail, ':');
      case Some(j) =>
        FirstOccurrenceCount(tail, j, ':');
  }

  /** Writing an entry out and splitting it again gives the same entry. */
  lemma SplitEntryOfJoined(e: ProcCgroupEntry)
    requires ':' !in e.id && ':' !in e.controllers
    ensures SplitEntry(e.id + ":" + e.controllers + ":" + e.path) == Some(e)
  {
    CutsOfJoined(e.id, e.controllers, e.path, ':');
    SplitEntryAt(e.id + ":" + e.controllers + ":" + e.path, |e.id|, |e.controllers|);
  }

  /** In `a x b x c` with no `x` in `a` or `b`, the first two `x` are the two separators written. */
  lemma CutsOfJoined<T>(a: seq<T>, b: seq<T>, c: seq<T>, x: T)
    requires x !in a && x !in b
    ensures var line := a + [x] + b + [x] + c;
      && IndexOf(line, x) == Some(|a|)
      && IndexOf(line[|a| + 1..], x) == Some(|b|)
      && line[..|a|] == a && line[|a| + 1..][..|b|] == b && line[|a| + 1..][|b| + 1..] == c
  {
    var line := a + [x] + b + [x] + c;
    var tail := b + [x] + c;
    assert line == a + [x] + tail;
    IndexOfSeparator(a, x, tail);
    IndexOfSeparator(b, x, c);
    assert line[|a| + 1..] == tail;
  }

  lemma SplitEntryAt(line: string, i: nat, j: nat)
    requires IndexOf(line, ':') == Some(i) && IndexOf(line[i + 1..], ':') == Some(j)
    ensures SplitEntry(line) == Some(ProcCgroupEntry(line[..i], line[i + 1..][..j], line[i + 1..][j + 1..]))
  {
  }

  /** The first separator after a separator-free prefix is the one that ends it. */
  lemma {:induction false} IndexOfSeparator<T>(prefix: seq<T>, x: T, suffix: seq<T>)
    requires x !in prefix
    ensures IndexOf(prefix + [x] + suffix, x) == Some(|prefix|)
  {
    if prefix != [] {
      IndexOfSeparator(prefix[1..], x, suffix);
      assert (prefix + [x] + suffix)[1..] == prefix[1..] + [x] + suffix;
    }
  }

  /**
   * read_proc_cgroup's state: what strtok_r's saved pointer designates. The ':' it overwrites
   * with NUL lie inside the returned token, before that pointer, so they never show here.
   */
  class ProcCgroupReader {
    var rest: string

    constructor (content: string)
      ensures rest == content
    {
      rest := content;
    }

    /** The next line cut into an entry; None at the end and at a line with fewer than two ':'. */
    method Next() returns (entry: Option<ProcCgroupEntry>)
      modifies this
      ensures entry == NextEntry(old(rest)).0 && rest == NextEntry(old(rest)).1
    {
      var t := NextToken(rest, '\n');
      if t.None? {
        rest := [];
        return None;
      }
      rest := t.value.rest;
      entry := SplitEntry(t.value.token);
    }
  }

  /** One read_proc_cgroup call: the entry of the next line, if well formed, and the text after it. */
  function NextEntry(content: string): (r: (Option<ProcCgroupEntry>, string))
    ensures |r.1| <= |content| && (r.0.Some? ==> |r.1| < |content|)
  {
    match NextToken(content, '\n')
    case None => (None, [])
    case Some(t) => (SplitEntry(t.token), t.rest)
  }

  /** The entries a read_proc_cgroup loop yields before it stops at the end or at a malformed line. */
  function ProcCgroupEntries(content: string): (r: seq<ProcCgroupEntry>)
    ensures forall i | 0 <= i < |r| :: ':' !in r[i].id && ':' !in r[i].controllers
    decreases |content|
  {
    var (entry, rest) := NextEntry(content);
    if entry.None? then [] else [entry.value] + ProcCgroupEntries(rest)
  }

  /** Well-formed lines, one per entry, are read back as those entries. */
  lemma {:induction false} ProcCgroupEntriesOfLines(entries: seq<ProcCgroupEntry>)
    requires forall i | 0 <= i < |entries| ::
      ':' !in entries[i].id && ':' !in entries[i].controllers && '\n' !in EntryLine(entries[i])
    ensures ProcCgroupEntries(EntriesText(entries)) == entries
  {
    if entries != [] {
      var line := EntryLine(entries[0]);
      var rest := EntriesText(entries[1..]);
      NextTokenOfLine(line, rest);
      SplitEntryOfJoined(entries[0]);
      ProcCgroupEntriesOfLines(entries[1..]);
    }
  }

  function EntryLine(e: ProcCgroupEntry): string {
    e.id + ":" + e.controllers + ":" + e.path
  }

  /** The lines of the entries, each ended by a newline, as the kernel writes them. */
  function EntriesText(entries: seq<ProcCgroupEntry>): string {
    if entries == [] then [] else EntryLine(entries[0]) + "\n" + EntriesText(entries[1..])
  }

  /** strtok_r returns a newline-free line that starts the text, and resumes after its newline. */
  lemma NextTokenOfLine(line: string, rest: string)
    requires line != [] && '\n' !in line
    ensures NextToken(line + "\n" + rest, '\n') == Some(Token(0, line, true, rest))
  {
    var s := line + "\n" + rest;
    IndexOfSeparator(line, '\n', rest);
    assert s[..|line|] == line && s[|line| + 1..] == rest;
  }

  // ---------------------------------------------------------------------------
  // libcrun_get_current_unified_cgroup
  // ---------------------------------------------------------------------------

  const NO_CGROUP2_MSG: string := "cannot find cgroup2 for the current process"
  const BAD_PROC_CGROUP_MSG: string := "cannot parse /proc/self/cgroup"

  const PROC_SELF_CGROUP: string := "/proc/self/cgroup"

  /**
   * The cgroup v2 entry of the current process in the text of /proc/self/cgroup: the text
   * after the first "0::" anywhere in the file, up to the next newline.
   */
  function UnifiedCgroupEntry(content: string): (r: Result<string, CrunError>)
    ensures r.Ok? ==> '\n' !in r.value
    ensures r.Err? ==> r.error.errno == 0
  {
    match FindSubstring(content, "0::")
    case None => Err(CrunError(0, NO_CGROUP2_MSG))
    case Some(i) =>
      var from := content[i + 3..];
      match IndexOf(from, '\n')
      case None => Err(CrunError(0, BAD_PROC_CGROUP_MSG))
      case Some(j) => Ok(from[..j])
  }

  /** A file without "0::" has no cgroup2 line; no other input gives that error. */
  lemma CurrentUnifiedCgroupMissing(content: string)
    ensures FindSubstring(content, "0::").None? <==>
      UnifiedCgroupEntry(content) == Err(CrunError(0, NO_CGROUP2_MSG))
  {
    assert |NO_CGROUP2_MSG| != |BAD_PROC_CGROUP_MSG|;
  }

  /** A "0::" line that no newline ends is malformed; no other input gives that error. */
  lemma CurrentUnifiedCgroupUnterminated(content: string)
    ensures UnifiedCgroupEntry(content) == Err(CrunError(0, BAD_PROC_CGROUP_MSG)) <==>
      FindSubstring(content, "0::").Some? && '\n' !in content[FindSubstring(content, "0::").value + 3..]
  {
    assert |NO_CGROUP2_MSG| != |BAD_PROC_CGROUP_MSG|;
  }

  /** The unified path is the text right after the first "0::" up to the end of that line. */
  lemma CurrentUnifiedCgroupLocated(content: string)
    requires UnifiedCgroupEntry(content).Ok?
    ensures var path, from := UnifiedCgroupEntry(content).value, FindSubstring(content, "0::").value + 3;
      && from + |path| < |content|
      && content[from..from + |path|] == path
      && content[from + |path|] == '\n'
      && '\n' !in path
  {
    var i := FindSubstring(content, "0::").value;
    var j := IndexOf(content[i + 3..], '\n').value;
    LineOfSuffix(content, i + 3, j, '\n');
  }

  /** The text from `k` up to the first `x` after it: where it lies in `s`, and the `x` ending it. */
  lemma LineOfSuffix<T>(s: seq<T>, k: nat, j: nat, x: T)
    requires k <= |s| && IndexOf(s[k..], x) == Some(j)
    ensures k + j < |s| && s[k..][..j] == s[k..k + j] && s[k + j] == x
  {
    PrefixOfSuffix(s, k, j);
  }

  /** On a cgroup v2 host the file is the single line "0::<path>". */
  lemma UnifiedCgroupOfLine(path: string, rest: string)
    requires '\n' !in path
    ensures UnifiedCgroupEntry("0::" + path + "\n" + rest) == Ok(path)
  {
    var content := "0::" + path + "\n" + rest;
    assert content[..3] == "0::";
    assert FindSubstring(content, "0::") == Some(0);
    var from := content[3..];
    assert from == path + ['\n'] + rest;
    IndexOfSeparator(path, '\n', rest);
    assert from[..|path|] == path;
  }

  /**
   * libcrun_get_current_unified_cgroup: read /proc/self/cgroup, find the unified entry and
   * join it under the mount point. A failed read, a missing or unterminated entry and a
   * failed join each end the call with their own error.
   */
  function CurrentUnifiedCgroup(host: Host): (r: Result<string, CrunError>)
    ensures host.readFile(PROC_SELF_CGROUP).Err? ==> r == Err(host.readFile(PROC_SELF_CGROUP).error)
    ensures host.readFile(PROC_SELF_CGROUP).Ok? ==>
      var entry := UnifiedCgroupEntry(host.readFile(PROC_SELF_CGROUP).value);
      && (entry.Err? ==> r == Err(entry.error))
      && (entry.Ok? ==> r == host.appendPaths([CGROUP_ROOT, entry.value]))
    ensures r.Ok? ==> exists path :: '\n' !in path && host.appendPaths([CGROUP_ROOT, path]) == r
  {
    match host.readFile(PROC_SELF_CGROUP)
    case Err(e) => Err(e)
    case Ok(content) =>
      match UnifiedCgroupEntry(content)
      case Err(e) => Err(e)
      case Ok(path) => host.appendPaths([CGROUP_ROOT, path])
  }

  /** On a host whose /proc/self/cgroup starts with the line 0::<path>, the result is that path under the mount point. */
  lemma CurrentUnifiedCgroupOfHost(host: Host, path: string, rest: string)
    requires '\n' !in path && host.readFile(PROC_SELF_CGROUP) == Ok("0::" + path + "\n" + rest)
    ensures CurrentUnifiedCgroup(host) == host.appendPaths([CGROUP_ROOT, path])
  {
    UnifiedCgroupOfLine(path, rest);
  }

  // ---------------------------------------------------------------------------
  // detect_cgroup_mode and libcrun_get_cgroup_mode
  // ---------------------------------------------------------------------------

  const CGROUP2_SUPER_MAGIC: int := 0x6367_7270
  const TMPFS_MAGIC: int := 0x0102_1994

  /** A statfs call: the file system type, or the errno it failed with. */
  type Statfs = Result<int, int>

  /**
   * The layout, decided from statfs of the mount point and of its "unified" sub-directory:
   * cgroup2 on the mount point is the unified layout; otherwise it must be a tmpfs, and a
   * cgroup2 "unified" sub-directory makes it hybrid, a missing or other one legacy.
   */
  function DetectCgroupMode(root: Statfs, unified: Statfs): (r: Result<CgroupMode, CrunError>)
    ensures r == Ok(Unified) <==> root == Ok(CGROUP2_SUPER_MAGIC)
    ensures r == Ok(Hybrid) <==> root == Ok(TMPFS_MAGIC) && unified == Ok(CGROUP2_SUPER_MAGIC)
    ensures r == Ok(Legacy) <==>
      root == Ok(TMPFS_MAGIC) && (unified == Err(ENOENT) || (unified.Ok? && unified.value != CGROUP2_SUPER_MAGIC))
    ensures root.Err? ==> r.Err? && r.error.errno == root.error
    ensures root.Ok? && root.value != CGROUP2_SUPER_MAGIC && root.value != TMPFS_MAGIC ==> r.Err? && r.error.errno == 0
    ensures root == Ok(TMPFS_MAGIC) && unified.Err? && unified.error != ENOENT ==>
      r.Err? && r.error.errno == unified.error
  {
    if root.Err? then Err(CrunError(root.error, "statfs '" + CGROUP_ROOT + "'"))
    else if root.value == CGROUP2_SUPER_MAGIC then Ok(Unified)
    else if root.value != TMPFS_MAGIC then Err(CrunError(0, "invalid file system type on '" + CGROUP_ROOT + "'"))
    else if unified.Err? && unified.error != ENOENT then
      Err(CrunError(unified.error, "statfs '" + CGROUP_ROOT + "/unified'"))
    else if unified.Err? then Ok(Legacy)
    else if unified.value == CGROUP2_SUPER_MAGIC then Ok(Hybrid)
    else Ok(Legacy)
  }

  /** The "unified" sub-directory is consulted only when the mount point is a tmpfs. */
  lemma UnifiedProbedOnlyOnTmpfs(root: Statfs, unified1: Statfs, unified2: Statfs)
    requires root != Ok(TMPFS_MAGIC)
    ensures DetectCgroupMode(root, unified1) == DetectCgroupMode(root, unified2)
  {
  }

  /** libcrun_get_cgroup_mode's static cache: empty until a detection succeeds. */
  class CgroupModeCache {
    var cached: Option<CgroupMode>

    constructor ()
      ensures cached.None?
    {
      cached := None;
    }

    /**
     * A cached mode is returned without detecting again; otherwise the layout is detected
     * and, only when that succeeds, remembered.
     */
    method GetCgroupMode(root: Statfs, unified: Statfs) returns (r: Result<CgroupMode, CrunError>)
      modifies this
      ensures old(cached).Some? ==> r == Ok(old(cached).value) && cached == old(cached)
      ensures old(cached).None? ==> r == DetectCgroupMode(root, unified)
      ensures old(cached).None? ==> cached == if r.Ok? then Some(r.value) else None
    {
      if cached.Some? {
        return Ok(cached.value);
      }
      r := DetectCgroupMode(root, unified);
      if r.Err? {
        return;
      }
      cached := Some(r.value);
    }
  }

  // ---------------------------------------------------------------------------
  // read_pids_cgroup: filling the pid array from one cgroup.procs buffer
  // ---------------------------------------------------------------------------

  /**
   * The slots read_pids_cgroup reserves for a non-empty buffer: one for the first line and one
   * for every newline after the first character.
   */
  function LineSlots(buffer: string): nat
    requires buffer != []
  {
    1 + multiset(buffer[1..])['\n']
  }

  /** The pid of one cgroup.procs line: strtoul's value stored into a pid_t. */
  function LinePid(line: string): (pid: int)
    ensures -0x8000_0000 <= pid < 0x8000_0000
  {
    ToInt32(Strtoul(line))
  }

  /** The pids kept from the given lines, in order: those that are positive. */
  function PositivePids(lines: seq<string>): (r: seq<int>)
    ensures |r| <= |lines|
    ensures forall i | 0 <= i < |r| :: 0 < r[i] < 0x8000_0000
  {
    if lines == [] then []
    else
      var pid := LinePid(lines[0]);
      (if pid > 0 then [pid] else []) + PositivePids(lines[1..])
  }

  /** The pids a cgroup.procs buffer contributes. */
  function ParsedPids(buffer: string): (r: seq<int>)
    ensures |r| <= |Tokens(buffer, '\n')|
    ensures forall i | 0 <= i < |r| :: 0 < r[i] < 0x8000_0000
  {
    PositivePids(Tokens(buffer, '\n'))
  }

  /** The reserved slots suffice: no buffer yields more pids than LineSlots. */
  lemma ParsedPidsFit(buffer: string)
    requires buffer != []
    ensures |ParsedPids(buffer)| <= |Tokens(buffer, '\n')| <= LineSlots(buffer)
  {
    TokenCountBound(buffer, '\n');
    assert buffer == [buffer[0]] + buffer[1..];
  }

  /** The text cgroup.procs holds for a list of pids: one decimal number per line. */
  function PidsText(pids: seq<int>): string
    requires forall i | 0 <= i < |pids| :: pids[i] >= 0
  {
    if pids == [] then [] else DecimalText(pids[0]) + "\n" + PidsText(pids[1..])
  }

  /** Reading back the text of a list of valid pids gives the list. */
  lemma {:induction false} ParsedPidsOfText(pids: seq<int>)
    requires forall i | 0 <= i < |pids| :: 0 < pids[i] < 0x8000_0000
    ensures ParsedPids(PidsText(pids)) == pids
  {
    if pids != [] {
      ParsedPidsCons(pids);
      ParsedPidsOfText(pids[1..]);
      assert pids == [pids[0]] + pids[1..];
    }
  }

  /** The first line of the text of some pids gives back the first pid. */
  lemma ParsedPidsCons(pids: seq<int>)
    requires pids != [] && forall i | 0 <= i < |pids| :: 0 < pids[i] < 0x8000_0000
    ensures ParsedPids(PidsText(pids)) == [pids[0]] + ParsedPids(PidsText(pids[1..]))
  {
    var lines := Tokens(PidsText(pids), '\n');
    PidsTextLines(pids);
    LinePidOfDecimal(pids[0]);
    assert lines[1..] == Tokens(PidsText(pids[1..]), '\n');
  }

  lemma LinePidOfDecimal(pid: int)
    requires 0 < pid < 0x8000_0000
    ensures LinePid(DecimalText(pid)) == pid
  {
    StrtoulDecimalText(pid);
  }

  /** The first line of the text of some pids is the first pid's number. */
  lemma PidsTextLines(pids: seq<int>)
    requires pids != [] && forall i | 0 <= i < |pids| :: pids[i] >= 0
    ensures Tokens(PidsText(pids), '\n') == [DecimalText(pids[0])] + Tokens(PidsText(pids[1..]), '\n')
  {
    var first := DecimalText(pids[0]);
    assert '\n' !in first by {
      assert forall k | 0 <= k < |first| :: IsDigit(first[k]);
    }
    NextTokenOfLine(first, PidsText(pids[1..]));
  }

  /**
   * The pid array read_pids_cgroup fills: `pids` with `pids.Length` slots allocated, of
   * which the first `nPids` are in use.
   */
  class PidArray {
    var pids: array<int>
    var nPids: nat

    ghost predicate Valid()
      reads this
    {
      nPids <= pids.Length
    }

    /** No array yet: nothing read, nothing allocated. */
    constructor ()
      ensures Valid() && nPids == 0 && pids.Length == 0
    {
      pids := new int[0];
      nPids := 0;
    }

    /**
     * One cgroup.procs buffer: an empty one changes nothing; otherwise the array grows to
     * hold a slot per line and a terminator, the pids already there stay, every positive
     * line is appended in order and a 0 closes the list.
     */
    method ReadPidsBuffer(buffer: string)
      requires Valid()
      requires '\0' !in buffer
      modifies this, pids
      ensures Valid()
      ensures buffer == [] ==> pids == old(pids) && nPids == old(nPids) && pids[..] == old(pids[..])
      ensures buffer != [] ==>
        && pids.Length == Max(old(pids.Length), old(nPids) + LineSlots(buffer) + 1)
        && pids[..nPids] == old(pids[..nPids]) + ParsedPids(buffer)
        && nPids < pids.Length && pids[nPids] == 0
    {
      if |buffer| == 0 {
        return;
      }
      var n := CountLines(buffer);
      Reserve(nPids + n + 1);
      ParsedPidsFit(buffer);
      AppendPids(buffer);
      pids[nPids] := 0;
    }

    /** The xrealloc step: at least `size` slots afterwards, the pids in use kept. */
    method Reserve(size: nat)
      requires Valid()
      modifies this
      ensures Valid() && nPids == old(nPids)
      ensures pids.Length == Max(old(pids.Length), size)
      ensures pids[..nPids] == old(pids[..nPids])
      ensures pids == old(pids) || fresh(pids)
    {
      if pids.Length < size {
        var grown := new int[size];
        forall i | 0 <= i < pids.Length {
          grown[i] := pids[i];
        }
        pids := grown;
      }
    }

    /** The strtok_r loop, writing through this array's pointer and count. */
    method AppendPids(buffer: string)
      requires nPids + |Tokens(buffer, '\n')| < pids.Length
      modifies pids, this
      ensures pids == old(pids)
      ensures nPids == old(nPids) + |ParsedPids(buffer)| && nPids < pids.Length
      ensures pids[..nPids] == old(pids[..nPids]) + ParsedPids(buffer)
    {
      nPids := StorePids(pids, nPids, Tokens(buffer, '\n'));
    }
  }

  /**
   * The strtok_r loop of read_pids_cgroup over the lines it yields: every line's pid, when
   * positive, goes into the next free slot of `a` from `n0` on; the slots before `n0` stay.
   */
  method StorePids(a: array<int>, n0: nat, lines: seq<string>) returns (n: nat)
    requires n0 + |lines| < a.Length
    modifies a
    ensures n == n0 + |PositivePids(lines)| && n < a.Length
    ensures a[..n] == old(a[..n0]) + PositivePids(lines)
  {
    n := n0;
    for i := 0 to |lines|
      invariant n == n0 + |PositivePids(lines[..i])| && n <= n0 + i
      invariant a[..n] == old(a[..n0]) + PositivePids(lines[..i])
    {
      var pid := LinePid(lines[i]);
      PositivePidsSnoc(lines[..i], lines[i]);
      assert lines[..i + 1] == lines[..i] + [lines[i]];
      if pid > 0 {
        ghost var before := a[..n];
        a[n] := pid;
        assert a[..n + 1] == before + [pid];
        n := n + 1;
      }
    }
    assert lines[..|lines|] == lines;
  }

  /** Appending a line appends its pid when that is positive. */
  lemma {:induction false} PositivePidsSnoc(lines: seq<string>, line: string)
    ensures PositivePids(lines + [line]) ==
      PositivePids(lines) + (if LinePid(line) > 0 then [LinePid(line)] else [])
  {
    if lines != [] {
      PositivePidsSnoc(lines[1..], line);
      assert (lines + [line])[1..] == lines[1..] + [line];
    }
  }

  /** The first counting loop: one for the first line and one per newline after the first character. */
  method CountLines(buffer: string) returns (n: nat)
    requires buffer != []
    ensures n == LineSlots(buffer)
  {
    n := 0;
    var it := 0;
    var more := true;
    while more
      invariant it < |buffer|
      invariant more ==> n == multiset(buffer[1..it + 1])['\n']
      invariant !more ==> n == LineSlots(buffer)
      decreases |buffer| - it, more
    {
      var next := IndexOf(buffer[it + 1..], '\n');
      CountAcross(buffer, it, '\n', next);
      n := n + 1;
      if next.None? {
        more := false;
      } else {
        it := it + 1 + next.value;
      }
    }
  }

  function Max(a: int, b: int): int {
    if a < b then b else a
  }

  /** One step of the counting loop: the next newline adds one, none left means every one was seen. */
  lemma CountAcross<T>(buffer: seq<T>, it: nat, x: T, next: Option<nat>)
    requires it < |buffer|
    requires next == IndexOf(buffer[it + 1..], x)
    ensures next.Some? ==>
      && it + 1 + next.value < |buffer|
      && multiset(buffer[1..it + 1 + next.value + 1])[x] == multiset(buffer[1..it + 1])[x] + 1
    ensures next.None? ==> multiset(buffer[1..])[x] == multiset(buffer[1..it + 1])[x]
  {
    if next.None? {
      CountToEnd(buffer, it, x);
    } else {
      CountToNext(buffer, it, x, next.value);
    }
  }

  lemma CountToEnd<T>(buffer: seq<T>, it: nat, x: T)
    requires it < |buffer| && x !in buffer[it + 1..]
    ensures multiset(buffer[1..])[x] == multiset(buffer[1..it + 1])[x]
  {
    var tail := buffer[it + 1..];
    NoneEqualCount(tail, x);
    assert buffer[1..] == buffer[1..it + 1] + tail;
  }

  lemma CountToNext<T>(buffer: seq<T>, it: nat, x: T, j: nat)
    requires it + 1 + j < |buffer| && buffer[it + 1 + j] == x && x !in buffer[it + 1..][..j]
    ensures multiset(buffer[1..it + 1 + j + 1])[x] == multiset(buffer[1..it + 1])[x] + 1
  {
    var seen := buffer[it + 1..][..j];
    NoneEqualCount(seen, x);
    assert buffer[1..it + 1 + j + 1] == buffer[1..it + 1] + seen + [x];
  }

  // ---------------------------------------------------------------------------
  // destroy_cgroup_path: the hierarchies visited outside the unified layout
  // ---------------------------------------------------------------------------

  /**
   * The hierarchy directory for one controller list: a "name=" prefix is dropped, the empty
   * list is the "unified" directory, and that directory is skipped (None) in the legacy layout.
   */
  function DestroySubsystem(controllers: string, mode: CgroupMode): (r: Option<string>)
    ensures r.Some? ==> r.value != [] && (mode == Legacy ==> r.value != "unified")
    ensures mode != Legacy ==> r.Some?
  {
    var controller := if HasPrefix(controllers, "name=") then controllers[5..] else controllers;
    var subsystem := if controller == [] then "unified" else controller;
    if mode == Legacy && subsystem == "unified" then None else Some(subsystem)
  }

  /**
   * Which directory a controller list names: itself, or what follows "name="; "unified" for
   * the empty list; nothing, in the legacy layout, where that would be "unified".
   */
  lemma DestroySubsystemChoice(controllers: string, mode: CgroupMode)
    ensures var r := DestroySubsystem(controllers, mode);
      && (r.Some? ==> r.value != [])
      && (mode == Legacy ==> r != Some("unified"))
      && (mode != Legacy ==> r.Some?)
      && (controllers == [] && mode != Legacy ==> r == Some("unified"))
      && (!HasPrefix(controllers, "name=") && controllers != [] && (mode != Legacy || controllers != "unified")
          ==> r == Some(controllers))
      && (HasPrefix(controllers, "name=") && |controllers| > 5 && (mode != Legacy || controllers[5..] != "unified")
          ==> r == Some(controllers[5..]))
  {
  }

  /** The hierarchies visited, in /proc/self/cgroup order. */
  function SelectSubsystems(entries: seq<ProcCgroupEntry>, mode: CgroupMode): (r: seq<string>)
    ensures |r| <= |entries|
  {
    if entries == [] then []
    else Listed(DestroySubsystem(entries[0].controllers, mode)) + SelectSubsystems(entries[1..], mode)
  }

  function Listed(o: Option<string>): seq<string> {
    match o
    case None => []
    case Some(s) => [s]
  }

  /** One entry further: what was visited before it, then its directory, then the later ones. */
  lemma SelectSubsystemsStep(entries: seq<ProcCgroupEntry>, k: nat, mode: CgroupMode, visited: seq<string>)
    requires k < |entries|
    requires SelectSubsystems(entries, mode) == visited + SelectSubsystems(entries[k..], mode)
    ensures SelectSubsystems(entries, mode) ==
      (visited + Listed(DestroySubsystem(entries[k].controllers, mode))) + SelectSubsystems(entries[k + 1..], mode)
  {
    var chosen := Listed(DestroySubsystem(entries[k].controllers, mode));
    var later := SelectSubsystems(entries[k + 1..], mode);
    assert entries[k..][1..] == entries[k + 1..];
    assert SelectSubsystems(entries[k..], mode) == chosen + later;
    assert visited + (chosen + later) == (visited + chosen) + later;
  }

  /** Every directory visited is named, and the legacy layout never visits "unified". */
  lemma {:induction false} SelectedSubsystems(entries: seq<ProcCgroupEntry>, mode: CgroupMode)
    ensures var r := SelectSubsystems(entries, mode);
      |r| <= |entries| && forall i | 0 <= i < |r| :: r[i] != [] && (mode == Legacy ==> r[i] != "unified")
  {
    if entries != [] {
      DestroySubsystemChoice(entries[0].controllers, mode);
      SelectedSubsystems(entries[1..], mode);
    }
  }

  /** Outside the legacy layout no entry is skipped. */
  lemma {:induction false} NoSkipOutsideLegacy(entries: seq<ProcCgroupEntry>, mode: CgroupMode)
    requires mode != Legacy
    ensures |SelectSubsystems(entries, mode)| == |entries|
  {
    if entries != [] {
      DestroySubsystemChoice(entries[0].controllers, mode);
      NoSkipOutsideLegacy(entries[1..], mode);
    }
  }

  /**
   * read_proc_cgroup called until it reports no more data: the entries of /proc/self/cgroup
   * up to the end or to the first malformed line.
   */
  method ReadProcCgroupEntries(content: string) returns (entries: seq<ProcCgroupEntry>)
    ensures entries == ProcCgroupEntries(content)
  {
    var reader := new ProcCgroupReader(content);
    entries := [];
    var entry := reader.Next();
    while entry.Some?
      invariant ProcCgroupEntries(content) == entries + Pending(entry, reader.rest)
      decreases |reader.rest| + if entry.Some? then 1 else 0
    {
      PendingNext(ProcCgroupEntries(content), entries, entry.value, reader.rest);
      entries := entries + [entry.value];
      entry := reader.Next();
    }
    assert entries + [] == entries;
  }

  /** Reading one more entry moves it from the pending ones to those read. */
  lemma PendingNext(all: seq<ProcCgroupEntry>, read: seq<ProcCgroupEntry>, e: ProcCgroupEntry, rest: string)
    requires all == read + Pending(Some(e), rest)
    ensures all == (read + [e]) + Pending(NextEntry(rest).0, NextEntry(rest).1)
  {
    var later := Pending(NextEntry(rest).0, NextEntry(rest).1);
    assert Pending(Some(e), rest) == [e] + later;
    assert read + ([e] + later) == (read + [e]) + later;
  }

  /** The entries still to come once `entry` has been read and `rest` is left. */
  function Pending(entry: Option<ProcCgroupEntry>, rest: string): seq<ProcCgroupEntry> {
    if entry.None? then [] else [entry.value] + ProcCgroupEntries(rest)
  }

  /**
   * The loop of destroy_cgroup_path outside the unified layout: the directory of every
   * hierarchy listed in /proc/self/cgroup to remove the cgroup from, in order.
   */
  method SubsystemsToDestroy(content: string, mode: CgroupMode) returns (subsystems: seq<string>)
    ensures subsystems == SelectSubsystems(ProcCgroupEntries(content), mode)
  {
    var entries := ReadProcCgroupEntries(content);
    subsystems := SubsystemsOf(entries, mode);
  }

  /** The body of that loop, entry by entry: the hierarchy directory chosen for each, if any. */
  method SubsystemsOf(entries: seq<ProcCgroupEntry>, mode: CgroupMode) returns (subsystems: seq<string>)
    ensures subsystems == SelectSubsystems(entries, mode)
  {
    subsystems := [];
    for k := 0 to |entries|
      invariant SelectSubsystems(entries, mode) == subsystems + SelectSubsystems(entries[k..], mode)
    {
      var chosen := DestroySubsystem(entries[k].controllers, mode);
      SelectSubsystemsStep(entries, k, mode, subsystems);
      subsystems := subsystems + Listed(chosen);
    }
    assert entries[|entries|..] == [];
  }
}
