/** The prefix and the screen segments of the account console, normalised and joined to paths. */
module AccountPaths {
  import opened Wrappers

  // ---- Strings -----------------------------------------------------------------------

  function DropLeading(s: string, p: char -> bool): string {
    if s != "" && p(s[0]) then DropLeading(s[1..], p) else s
  }

  function DropTrailing(s: string, p: char -> bool): string {
    if s != "" && p(s[|s| - 1]) then DropTrailing(s[..|s| - 1], p) else s
  }

  /** What is left is a suffix that does not begin with a dropped character, and all others were dropped. */
  lemma {:induction false} DropLeadingLeaves(s: string, p: char -> bool)
    ensures var r := DropLeading(s, p);
      && |r| <= |s| && r == s[|s| - |r|..] && (r != "" ==> !p(r[0]))
      && forall i :: 0 <= i < |s| - |r| ==> p(s[i])
  {
    if s != "" && p(s[0]) {
      DropLeadingLeaves(s[1..], p);
      var r := DropLeading(s, p);
      forall i | 0 <= i < |s| - |r| ensures p(s[i]) {
        assert i > 0 ==> s[i] == s[1..][i - 1];
      }
      assert r == s[1..][|s| - 1 - |r|..] == s[|s| - |r|..];
    }
  }

  /** What is left is a prefix that does not end with a dropped character, and all others were dropped. */
  lemma {:induction false} DropTrailingLeaves(s: string, p: char -> bool)
    ensures var r := DropTrailing(s, p);
      && |r| <= |s| && r == s[..|r|] && (r != "" ==> !p(r[|r| - 1]))
      && forall i :: |r| <= i < |s| ==> p(s[i])
  {
    if s != "" && p(s[|s| - 1]) {
      DropTrailingLeaves(s[..|s| - 1], p);
    }
  }

  function Trim(s: string, space: char -> bool): string {
    DropTrailing(DropLeading(s, space), space)
  }

  predicate IsSlash(c: char) {
    c == '/'
  }

  function Slashed(p: string): string {
    if p != "" && p[0] == '/' then p else "/" + p
  }

  /** A leading slash, no trailing ones, and the root for what would be empty. */
  function StripPrefix(p: string): string {
    var q := DropTrailing(Slashed(p), IsSlash);
    if q == "" then "/" else q
  }

  /** `normalizeAccountPrefix`; `space` is the whitespace that `trim` removes. */
  function NormalizePrefix(raw: string, space: char -> bool): string {
    StripPrefix(Trim(raw, space))
  }

  /** `normalizeSegment`: no slash at either end. */
  function NormalizeSegment(raw: string, space: char -> bool): string {
    DropTrailing(DropLeading(Trim(raw, space), IsSlash), IsSlash)
  }

  predicate SaneSpace(space: char -> bool) {
    !space('/')
  }

  predicate StartsTwice(s: string) {
    |s| >= 2 && s[0] == s[1] == '/'
  }

  /** A normal prefix is the root, or starts with a slash and ends with none. */
  predicate NormalPrefix(p: string) {
    p == "/" || (|p| >= 2 && p[0] == '/' && p[|p| - 1] != '/')
  }

  predicate NormalSegment(s: string) {
    s != "" && s[0] != '/' && s[|s| - 1] != '/'
  }

  lemma StripPrefixIsNormal(p: string)
    ensures NormalPrefix(StripPrefix(p))
    ensures StartsTwice(StripPrefix(p)) ==> StartsTwice(p)
    ensures NormalPrefix(p) ==> StripPrefix(p) == p
  {
    var s := Slashed(p);
    var q := DropTrailing(s, IsSlash);
    DropTrailingLeaves(s, IsSlash);
    assert s[0] == '/';
    if q != "" {
      assert q[0] == s[0] && !IsSlash(q[|q| - 1]);
    }
    if StartsTwice(q) {
      assert s[1] == q[1];
    }
    if p == "/" {
      assert DropTrailing(p[..0], IsSlash) == "";
    }
  }

  /** What a host must write as a prefix for it to start with two slashes: two of them, and not slashes only. */
  ghost predicate DoubleSlashed(raw: string, space: char -> bool) {
    StartsTwice(Trim(raw, space)) && exists c :: c in Trim(raw, space) && c != '/'
  }

  lemma PrefixIsNormal(raw: string, space: char -> bool)
    ensures NormalPrefix(NormalizePrefix(raw, space))
    ensures StartsTwice(NormalizePrefix(raw, space)) <==> DoubleSlashed(raw, space)
  {
    var t := Trim(raw, space);
    var q := DropTrailing(Slashed(t), IsSlash);
    StripPrefixIsNormal(t);
    DropTrailingLeaves(Slashed(t), IsSlash);
    if DoubleSlashed(raw, space) {
      var i :| 0 <= i < |t| && t[i] != '/';
      assert |q| > i >= 2;
    }
    if StartsTwice(NormalizePrefix(raw, space)) {
      assert q[|q| - 1] in t;
    }
  }

  lemma SegmentIsNormal(raw: string, space: char -> bool)
    ensures NormalizeSegment(raw, space) == "" || NormalSegment(NormalizeSegment(raw, space))
  {
    var s := DropLeading(Trim(raw, space), IsSlash);
    var r := DropTrailing(s, IsSlash);
    DropLeadingLeaves(Trim(raw, space), IsSlash);
    DropTrailingLeaves(s, IsSlash);
    if r != "" {
      assert r[0] == s[0];
    }
  }

  predicate OnlySlashes(s: string) {
    forall i :: 0 <= i < |s| ==> s[i] == '/'
  }

  /** Trimming takes off whitespace at the edges, all of it and nothing else. */
  lemma TrimIsTheMiddle(s: string, space: char -> bool) returns (lead: string, tail: string)
    ensures s == lead + Trim(s, space) + tail
    ensures (forall i :: 0 <= i < |lead| ==> space(lead[i])) && (forall i :: 0 <= i < |tail| ==> space(tail[i]))
    ensures var t := Trim(s, space); t != "" ==> !space(t[0]) && !space(t[|t| - 1])
  {
    var d := DropLeading(s, space);
    var t := DropTrailing(d, space);
    DropLeadingLeaves(s, space);
    DropTrailingLeaves(d, space);
    lead, tail := s[..|s| - |d|], d[|t|..];
    if t != "" {
      assert t[0] == d[0];
    }
  }

  /** A normalised segment is the trimmed text between its edge slashes. */
  lemma SegmentIsTheMiddle(raw: string, space: char -> bool) returns (lead: string, tail: string)
    ensures Trim(raw, space) == lead + NormalizeSegment(raw, space) + tail
    ensures OnlySlashes(lead) && OnlySlashes(tail)
    ensures var seg := NormalizeSegment(raw, space); seg != "" ==> NormalSegment(seg)
  {
    var t := Trim(raw, space);
    var d := DropLeading(t, IsSlash);
    var seg := DropTrailing(d, IsSlash);
    DropLeadingLeaves(t, IsSlash);
    DropTrailingLeaves(d, IsSlash);
    SegmentIsNormal(raw, space);
    lead, tail := t[..|t| - |d|], d[|seg|..];
  }

  lemma {:induction false} OnlySlashesDrop(s: string)
    requires OnlySlashes(s)
    ensures DropTrailing(s, IsSlash) == ""
  {
    if s != "" {
      OnlySlashesDrop(s[..|s| - 1]);
    }
  }

  /** A normalised prefix is the trimmed text, with a slash before it if it has none, without its last slashes; or the root. */
  lemma PrefixKeepsTheText(raw: string, space: char -> bool) returns (tail: string)
    ensures OnlySlashes(tail)
    ensures var t, p := Trim(raw, space), NormalizePrefix(raw, space);
      if OnlySlashes(t) then p == "/" else p + tail == (if t[0] == '/' then t else "/" + t)
  {
    var t := Trim(raw, space);
    var q := DropTrailing(Slashed(t), IsSlash);
    DropTrailingLeaves(Slashed(t), IsSlash);
    tail := Slashed(t)[|q|..];
    if OnlySlashes(t) {
      OnlySlashesDrop(Slashed(t));
    } else {
      var i :| 0 <= i < |t| && t[i] != '/';
      assert !IsSlash(Slashed(t)[if t[0] == '/' then i else i + 1]);
    }
  }

  /** Normalising again changes nothing exactly when the output has no whitespace at its edges. */
  lemma NormalizeFixedIff(raw: string, space: char -> bool)
    requires SaneSpace(space)
    ensures var p := NormalizePrefix(raw, space);
      NormalizePrefix(p, space) == p <==> Trim(p, space) == p
  {
    var p := NormalizePrefix(raw, space);
    PrefixIsNormal(raw, space);
    assert DropLeading(p, space) == p;
    TrimKeepsHead(p, space);
    var t := Trim(p, space);
    DropTrailingLeaves(p, space);
    DropTrailingLeaves(t, IsSlash);
    if t == p {
      StripPrefixIsNormal(p);
    } else {
      assert |t| < |p| && t[0] == '/' && Slashed(t) == t;
      assert |StripPrefix(t)| <= |t|;
    }
  }

  lemma {:induction false} TrimKeepsHead(s: string, space: char -> bool)
    requires s != "" && !space(s[0])
    ensures DropTrailing(s, space) != "" && DropTrailing(s, space)[0] == s[0]
  {
    if |s| > 1 && space(s[|s| - 1]) {
      TrimKeepsHead(s[..|s| - 1], space);
    }
  }

  // ---- The singleton -------------------------------------------------------------------

  datatype Screen = Login | Logout | Security | Mfa | Confirm | Tokens | Apps | Orgs | EmailConfirm

  const DEFAULT_PREFIX := "/account"

  const DEFAULT_SEGMENTS: map<Screen, string> := map[
    Login := "login", Logout := "logout", Security := "security", Mfa := "mfa", Confirm := "confirm",
    Tokens := "tokens", Apps := "apps", Orgs := "orgs", EmailConfirm := "email/confirm"]

  /** `paths` lists the given screens in key order. */
  datatype Options = Options(prefix: Option<string>, paths: seq<(Screen, string)>)

  datatype Paths = Paths(prefix: string, segments: map<Screen, string>)

  const DEFAULTS := Paths(DEFAULT_PREFIX, DEFAULT_SEGMENTS)

  /** Values that normalise to nothing are ignored. */
  function Configured(p: Paths, opts: Options, space: char -> bool): Paths {
    Paths(
      if opts.prefix.Some? && Trim(opts.prefix.value, space) != "" then NormalizePrefix(Trim(opts.prefix.value, space), space)
      else p.prefix,
      Overridden(p.segments, opts.paths, space))
  }

  function Overridden(segments: map<Screen, string>, paths: seq<(Screen, string)>, space: char -> bool): map<Screen, string> {
    if paths == [] then segments
    else
      var before, (k, raw) := Overridden(segments, paths[..|paths| - 1], space), paths[|paths| - 1];
      var seg := NormalizeSegment(raw, space);
      if seg != "" then before[k := seg] else before
  }

  class AccountPathsModule {
    var prefix: string
    var segments: map<Screen, string>
    const space: char -> bool

    /** The prefix is a normal one, and every screen has a normal segment. */
    ghost predicate Valid()
      reads this
    {
      NormalPaths(Contents())
    }

    constructor (space: char -> bool)
      ensures Contents() == DEFAULTS && this.space == space && Valid()
    {
      DefaultsAreNormal();
      prefix, segments, this.space := DEFAULT_PREFIX, DEFAULT_SEGMENTS, space;
    }

    function Contents(): Paths
      reads this
    {
      Paths(prefix, segments)
    }

    method SetAccountPaths(opts: Option<Options>)
      requires Valid()
      modifies this`prefix, this`segments
      ensures Contents() == if opts.None? then old(Contents()) else Configured(old(Contents()), opts.value, space)
      ensures Valid()
    {
      if opts.None? {
        return;
      }
      ConfiguringStaysNormal(Contents(), opts.value, space);
      if opts.value.prefix.Some? {
        var trimmed := Trim(opts.value.prefix.value, space);
        if trimmed != "" {
          prefix := NormalizePrefix(trimmed, space);
        }
      }
      var paths := opts.value.paths;
      ghost var was := segments;
      for i := 0 to |paths|
        invariant segments == Overridden(was, paths[..i], space)
        invariant prefix == Configured(old(Contents()), opts.value, space).prefix
      {
        assert paths[..i + 1][..i] == paths[..i];
        var (k, value) := paths[i];
        var seg := NormalizeSegment(value, space);
        if seg != "" {
          segments := segments[k := seg];
        }
      }
      assert paths[..|paths|] == paths;
    }

    method ResetAccountPaths()
      modifies this`prefix, this`segments
      ensures Contents() == DEFAULTS && Valid()
    {
      DefaultsAreNormal();
      prefix, segments := DEFAULT_PREFIX, DEFAULT_SEGMENTS;
    }

    /** The screen's segment comes after a slash at the end, and no stray slash stands at either end. */
    method AccountPath(k: Screen) returns (path: string)
      requires Valid()
      ensures k in segments && path == PathOf(Contents(), k)
      ensures path[0] == '/' && path[|path| - 1] != '/' && (StartsTwice(path) <==> StartsTwice(prefix))
      ensures path[|path| - |segments[k]| - 1..] == "/" + segments[k]
      ensures path == if prefix == "/" then "/" + segments[k] else prefix + "/" + segments[k]
    {
      JoinIsWellFormed(prefix, segments[k]);
      path := JoinPath(prefix, segments[k]);
    }
  }

  /** The root prefix counts as nothing, so that no path starts with two slashes because of it. */
  function JoinPath(prefix: string, sub: string): string {
    (if prefix == "/" then "" else prefix) + "/" + sub
  }

  function PathOf(p: Paths, k: Screen): string
    requires k in p.segments
  {
    JoinPath(p.prefix, p.segments[k])
  }

  datatype Op = Set(opts: Option<Options>) | Reset

  function Run(ops: seq<Op>, space: char -> bool): Paths {
    if ops == [] then DEFAULTS
    else
      var p, op := Run(ops[..|ops| - 1], space), ops[|ops| - 1];
      if op.Reset? then DEFAULTS else if op.opts.None? then p else Configured(p, op.opts.value, space)
  }

  /** The prefix that the host last asked for since the last reset; blank ones do not count. */
  function PrefixInForce(ops: seq<Op>, space: char -> bool): Option<string> {
    if ops == [] then None
    else
      var op := ops[|ops| - 1];
      if op.Reset? then None
      else if op.opts.Some? && op.opts.value.prefix.Some? && Trim(op.opts.value.prefix.value, space) != ""
      then op.opts.value.prefix
      else PrefixInForce(ops[..|ops| - 1], space)
  }

  /** The segment that the host last asked for since the last reset; ones that normalise to nothing do not count. */
  function SegmentInForce(ops: seq<Op>, k: Screen, space: char -> bool): Option<string> {
    if ops == [] then None
    else
      var op := ops[|ops| - 1];
      if op.Reset? then None
      else
        var asked := if op.opts.Some? then LastAsked(op.opts.value.paths, k, space) else None;
        if asked.Some? then asked else SegmentInForce(ops[..|ops| - 1], k, space)
  }

  /** The last entry for the screen that is not blank. */
  function LastAsked(paths: seq<(Screen, string)>, k: Screen, space: char -> bool): Option<string> {
    if paths == [] then None
    else
      var (screen, raw) := paths[|paths| - 1];
      if screen == k && NormalizeSegment(raw, space) != "" then Some(NormalizeSegment(raw, space))
      else LastAsked(paths[..|paths| - 1], k, space)
  }

  lemma {:induction false} OverriddenByTheLast(segments: map<Screen, string>, paths: seq<(Screen, string)>, k: Screen, space: char -> bool)
    requires k in segments
    ensures k in Overridden(segments, paths, space)
    ensures var asked := LastAsked(paths, k, space);
      Overridden(segments, paths, space)[k] == if asked.Some? then asked.value else segments[k]
  {
    if paths != [] {
      OverriddenByTheLast(segments, paths[..|paths| - 1], k, space);
    }
  }

  function DefaultSegment(k: Screen): string {
    match k
    case Login => "login"
    case Logout => "logout"
    case Security => "security"
    case Mfa => "mfa"
    case Confirm => "confirm"
    case Tokens => "tokens"
    case Apps => "apps"
    case Orgs => "orgs"
    case EmailConfirm => "email/confirm"
  }

  lemma DefaultSegmentsAre(k: Screen)
    ensures k in DEFAULT_SEGMENTS && DEFAULT_SEGMENTS[k] == DefaultSegment(k)
  {
  }

  /** After any run a screen has the segment in force, or else its default. */
  lemma {:induction false} RunHasSegmentInForce(ops: seq<Op>, k: Screen, space: char -> bool)
    ensures k in Run(ops, space).segments
    ensures var asked := SegmentInForce(ops, k, space);
      Run(ops, space).segments[k] == if asked.Some? then asked.value else DefaultSegment(k)
  {
    DefaultSegmentsAre(k);
    if ops != [] {
      var n := |ops| - 1;
      RunHasSegmentInForce(ops[..n], k, space);
      if ops[n].Set? && ops[n].opts.Some? {
        OverriddenByTheLast(Run(ops[..n], space).segments, ops[n].opts.value.paths, k, space);
      }
    }
  }

  lemma {:induction false} TrimTwice(s: string, space: char -> bool)
    ensures Trim(Trim(s, space), space) == Trim(s, space)
  {
    var t := Trim(s, space);
    var d := DropLeading(s, space);
    DropLeadingLeaves(s, space);
    DropTrailingLeaves(d, space);
    if t != "" {
      assert t[0] == d[0];
      assert DropLeading(t, space) == t && DropTrailing(t, space) == t;
    }
  }

  ghost predicate NormalSegments(segments: map<Screen, string>) {
    forall k: Screen :: k in segments && NormalSegment(segments[k])
  }

  ghost predicate NormalPaths(p: Paths) {
    NormalPrefix(p.prefix) && NormalSegments(p.segments)
  }

  lemma {:induction false} OverridingStaysNormal(segments: map<Screen, string>, paths: seq<(Screen, string)>, space: char -> bool)
    requires NormalSegments(segments)
    ensures NormalSegments(Overridden(segments, paths, space))
  {
    if paths != [] {
      var before, after := Overridden(segments, paths[..|paths| - 1], space), Overridden(segments, paths, space);
      OverridingStaysNormal(segments, paths[..|paths| - 1], space);
      SegmentIsNormal(paths[|paths| - 1].1, space);
      forall k: Screen ensures k in after && NormalSegment(after[k]) {
        assert k in before && NormalSegment(before[k]);
      }
    }
  }

  lemma ConfiguringStaysNormal(p: Paths, opts: Options, space: char -> bool)
    requires NormalPaths(p)
    ensures NormalPaths(Configured(p, opts, space))
  {
    OverridingStaysNormal(p.segments, opts.paths, space);
    if opts.prefix.Some? {
      PrefixIsNormal(Trim(opts.prefix.value, space), space);
    }
  }

  lemma DefaultsAreNormal()
    ensures NormalPaths(DEFAULTS) && !StartsTwice(DEFAULT_PREFIX)
  {
    forall k: Screen ensures k in DEFAULT_SEGMENTS && NormalSegment(DEFAULT_SEGMENTS[k]) {
      DefaultSegmentsAre(k);
    }
  }

  lemma {:induction false} RunIsNormal(ops: seq<Op>, space: char -> bool)
    ensures NormalPaths(Run(ops, space))
    ensures var raw := PrefixInForce(ops, space);
      Run(ops, space).prefix == if raw.Some? then NormalizePrefix(raw.value, space) else DEFAULT_PREFIX
  {
    DefaultsAreNormal();
    if ops != [] {
      var n := |ops| - 1;
      RunIsNormal(ops[..n], space);
      if ops[n].Set? && ops[n].opts.Some? {
        ConfiguringStaysNormal(Run(ops[..n], space), ops[n].opts.value, space);
        if ops[n].opts.value.prefix.Some? {
          TrimTwice(ops[n].opts.value.prefix.value, space);
        }
      }
    }
  }

  /**
   * After any sequence of settings and resets every screen path starts with a slash, does not end
   * with one, and starts with two exactly when the prefix in force was written with two.
   */
  lemma PathsAreWellFormed(ops: seq<Op>, space: char -> bool, k: Screen)
    ensures k in Run(ops, space).segments
    ensures var path, raw := PathOf(Run(ops, space), k), PrefixInForce(ops, space);
      && path != "" && path[0] == '/' && path[|path| - 1] != '/'
      && (StartsTwice(path) <==> raw.Some? && DoubleSlashed(raw.value, space))
  {
    var raw := PrefixInForce(ops, space);
    RunIsNormal(ops, space);
    DefaultsAreNormal();
    if raw.Some? {
      PrefixIsNormal(raw.value, space);
    }
    JoinIsWellFormed(Run(ops, space).prefix, Run(ops, space).segments[k]);
  }

  lemma PathJoins(p: Paths, k: Screen)
    requires k in p.segments
    ensures PathOf(p, k) == if p.prefix == "/" then "/" + p.segments[k] else p.prefix + "/" + p.segments[k]
  {
  }

  /**
   * After any sequence of settings and resets every path is the prefix in force, the root counting as
   * nothing, a slash, and the segment in force, each of them the default if the host asked for none.
   */
  lemma PathIsAsConfigured(ops: seq<Op>, space: char -> bool, k: Screen)
    ensures k in Run(ops, space).segments
    ensures var rawPrefix, asked := PrefixInForce(ops, space), SegmentInForce(ops, k, space);
      var prefix := if rawPrefix.Some? then NormalizePrefix(rawPrefix.value, space) else "/account";
      var segment := if asked.Some? then asked.value else DefaultSegment(k);
      PathOf(Run(ops, space), k) == if prefix == "/" then "/" + segment else prefix + "/" + segment
  {
    RunIsNormal(ops, space);
    RunHasSegmentInForce(ops, k, space);
    PathJoins(Run(ops, space), k);
  }

  lemma JoinIsWellFormed(prefix: string, sub: string)
    requires NormalPrefix(prefix) && NormalSegment(sub)
    ensures var path := JoinPath(prefix, sub);
      path != "" && path[0] == '/' && path[|path| - 1] != '/' && (StartsTwice(path) <==> StartsTwice(prefix))
  {
  }
}
