/** App ids, group rules and the one group an app belongs to (crates/common/src/apps.rs). */
module Apps {
  import opened Wrappers

  // ---- App ids ----------------------------------------------------------------------------

  const MAX_APP_ID_LEN: nat := 255

  datatype AppKind = Desktop | Flatpak | Snap | Steam | Minecraft | Wine | Exe

  datatype AppId = AppId(kind: AppKind, name: string)

  function Prefix(kind: AppKind): string {
    match kind
    case Desktop => "desktop"
    case Flatpak => "flatpak"
    case Snap => "snap"
    case Steam => "steam"
    case Minecraft => "minecraft"
    case Wine => "wine"
    case Exe => "exe"
  }

  const KINDS: seq<AppKind> := [Desktop, Flatpak, Snap, Steam, Minecraft, Wine, Exe]

  /** The first of `kinds` with the prefix `s`. */
  function KindNamed(s: string, kinds: seq<AppKind>): (k: Option<AppKind>) {
    if kinds == [] then None else if s == Prefix(kinds[0]) then Some(kinds[0]) else KindNamed(s, kinds[1..])
  }

  predicate IsLower(c: char) { 'a' <= c <= 'z' }
  predicate IsDigit(c: char) { '0' <= c <= '9' }
  predicate IsAlphanumeric(c: char) { IsLower(c) || 'A' <= c <= 'Z' || IsDigit(c) }
  predicate IsControl(c: char) { c as int < 0x20 || 0x7f <= c as int < 0xa0 }

  predicate ValidNameChar(kind: AppKind, c: char) {
    match kind
    case Flatpak => IsAlphanumeric(c) || c in "._-"
    case Snap => IsLower(c) || IsDigit(c) || c == '-'
    case Steam => IsDigit(c)
    case Minecraft => IsLower(c)
    case _ => !IsControl(c) && c != '/'
  }

  predicate ValidName(kind: AppKind, name: string) {
    name == "" || (ValidNameChar(kind, name[0]) && ValidName(kind, name[1..]))
  }

  /** Length of the UTF-8 encoding. */
  function ByteLength(s: string): nat {
    if s == "" then 0
    else
      var c := s[0] as int;
      (if c < 0x80 then 1 else if c < 0x800 then 2 else if c < 0x10000 then 3 else 4) + ByteLength(s[1..])
  }

  /** The text before and after the first ':'. */
  function SplitOnce(s: string): Option<(string, string)> {
    if s == "" then None
    else if s[0] == ':' then Some(("", s[1..]))
    else
      var rest := SplitOnce(s[1..]);
      if rest.None? then None else Some(([s[0]] + rest.value.0, rest.value.1))
  }

  lemma {:induction false} SplitOnceIsFirst(s: string, prefix: string, name: string)
    ensures SplitOnce(s) == Some((prefix, name)) <==> s == prefix + ":" + name && ':' !in prefix
  {
    if s != "" && s[0] != ':' {
      if prefix != "" {
        SplitOnceIsFirst(s[1..], prefix[1..], name);
        assert prefix == [prefix[0]] + prefix[1..];
        assert (prefix + ":" + name)[1..] == prefix[1..] + ":" + name;
      }
      var rest := SplitOnce(s[1..]);
      if rest.Some? { assert ([s[0]] + rest.value.0)[1..] == rest.value.0; }
      if s == prefix + ":" + name { assert s[0] == (prefix + ":" + name)[0]; assert prefix != ""; }
    } else if s != "" {
      if prefix != "" && s == prefix + ":" + name { assert prefix[0] == ':'; }
      if prefix == "" { assert (prefix + ":" + name)[1..] == name; }
    }
  }

  function ParseAppId(s: string): Option<AppId> {
    if ByteLength(s) > MAX_APP_ID_LEN then None
    else
      var parts := SplitOnce(s);
      if parts.None? then None
      else
        var kind := KindNamed(parts.value.0, KINDS);
        if kind.None? || parts.value.1 == "" || !ValidName(kind.value, parts.value.1) then None
        else Some(AppId(kind.value, parts.value.1))
  }

  predicate IsApp(id: AppId) { id.kind != Exe }

  function Display(id: AppId): string { Prefix(id.kind) + ":" + id.name }

  lemma PrefixesDiffer(a: AppKind, b: AppKind)
    ensures Prefix(a) == Prefix(b) <==> a == b
    ensures ':' !in Prefix(a)
  {}

  lemma {:induction false} KindNamedFinds(s: string, kinds: seq<AppKind>, kind: AppKind)
    ensures KindNamed(s, kinds) == Some(kind) <==> kind in kinds && Prefix(kind) == s
  {
    if kinds != [] {
      KindNamedFinds(s, kinds[1..], kind);
      PrefixesDiffer(kinds[0], kind);
      assert kinds == [kinds[0]] + kinds[1..];
    }
  }

  lemma EveryKindIsListed(kind: AppKind)
    ensures kind in KINDS
  {}

  /** Parsing and displaying are inverse, so an id keeps its identity on the wire: `s` parses to
      `id` exactly when `s` is what `id` displays as and the length and name rules hold. */
  lemma ParseIsInverseOfDisplay(s: string, id: AppId)
    ensures ParseAppId(s) == Some(id)
        <==> s == Display(id) && id.name != "" && ValidName(id.kind, id.name) && ByteLength(s) <= MAX_APP_ID_LEN
  {
    EveryKindIsListed(id.kind);
    PrefixesDiffer(id.kind, id.kind);
    SplitOnceIsFirst(s, Prefix(id.kind), id.name);
    var parts := SplitOnce(s);
    if parts.Some? { KindNamedFinds(parts.value.0, KINDS, id.kind); }
  }

  /** What each kind of app is called on the wire. */
  lemma WireForms(name: string)
    ensures Display(AppId(Desktop, name)) == "desktop:" + name && Display(AppId(Flatpak, name)) == "flatpak:" + name
    ensures Display(AppId(Snap, name)) == "snap:" + name && Display(AppId(Steam, name)) == "steam:" + name
    ensures Display(AppId(Minecraft, name)) == "minecraft:" + name && Display(AppId(Wine, name)) == "wine:" + name
    ensures Display(AppId(Exe, name)) == "exe:" + name
  {}

  /** Which names a kind allows, character by character. */
  lemma {:induction false} NamesAllowed(kind: AppKind, name: string)
    ensures ValidName(kind, name) <==> forall i :: 0 <= i < |name| ==>
              match kind
              case Flatpak => 'a' <= name[i] <= 'z' || 'A' <= name[i] <= 'Z' || '0' <= name[i] <= '9' || name[i] in ['.', '_', '-']
              case Snap => 'a' <= name[i] <= 'z' || '0' <= name[i] <= '9' || name[i] == '-'
              case Steam => '0' <= name[i] <= '9'
              case Minecraft => 'a' <= name[i] <= 'z'
              case _ => name[i] != '/' && 32 <= name[i] as int && !(127 <= name[i] as int <= 159)
  {
    if name != "" {
      NamesAllowed(kind, name[1..]);
      assert name == [name[0]] + name[1..];
    }
  }

  /** Lengths are in bytes: they add up, and a character counts one byte below U+0080, two below
      U+0800, three below U+10000 and four from there on. */
  lemma {:induction false} LengthsAddUp(a: string, c: char, b: string)
    ensures var n := c as int;
            ByteLength(a + [c] + b) == ByteLength(a) + ByteLength(b)
                                       + if n < 128 then 1 else if n < 2048 then 2 else if n < 65536 then 3 else 4
  {
    if a != "" {
      LengthsAddUp(a[1..], c, b);
      assert (a + [c] + b)[1..] == a[1..] + [c] + b;
    } else {
      assert (a + [c] + b)[1..] == b;
    }
  }

  // ---- Trimming (Rust's `str::trim`) ------------------------------------------------------

  predicate IsWhitespace(c: char) {
    var n := c as int;
    9 <= n <= 13 || n == 0x20 || n == 0x85 || n == 0xa0 || n == 0x1680 || 0x2000 <= n <= 0x200a
    || n == 0x2028 || n == 0x2029 || n == 0x202f || n == 0x205f || n == 0x3000
  }

  function TrimStart(s: string): string {
    if s != "" && IsWhitespace(s[0]) then TrimStart(s[1..]) else s
  }

  function TrimEnd(s: string): string {
    if s != "" && IsWhitespace(s[|s| - 1]) then TrimEnd(s[..|s| - 1]) else s
  }

  function Trim(s: string): string { TrimEnd(TrimStart(s)) }

  /** Nothing to trim: what the ids in a rule look like. */
  predicate Trimmed(s: string) {
    s != "" ==> !IsWhitespace(s[0]) && !IsWhitespace(s[|s| - 1])
  }

  lemma {:induction false} TrimStartDropsLeading(s: string)
    ensures TrimStart(s) != "" ==> !IsWhitespace(TrimStart(s)[0])
  {
    if s != "" && IsWhitespace(s[0]) { TrimStartDropsLeading(s[1..]); }
  }

  lemma {:induction false} TrimEndDropsTrailing(s: string)
    ensures TrimEnd(s) <= s
    ensures TrimEnd(s) != "" ==> !IsWhitespace(TrimEnd(s)[|TrimEnd(s)| - 1])
  {
    if s != "" && IsWhitespace(s[|s| - 1]) { TrimEndDropsTrailing(s[..|s| - 1]); }
  }

  /** What `add_rule` stores is trimmed, and trimming changes nothing else. */
  lemma TrimTrims(s: string)
    ensures Trimmed(Trim(s))
    ensures Trim(s) == s <==> Trimmed(s)
  {
    TrimStartDropsLeading(s);
    TrimEndDropsTrailing(TrimStart(s));
  }

  /** Blanks, tabs and line ends are whitespace, and so are the wide spaces from U+2000 to U+200A; no
      visible ASCII character is, and no letter from U+00C0 on up to U+167F. */
  lemma KnownWhitespace(c: char)
    ensures c in [' ', '\t', '\n', '\r'] || (0x2000 <= c as int && c as int <= 0x200A) ==> IsWhitespace(c)
    ensures '!' <= c <= '~' || (0xC0 <= c as int && c as int < 0x1680) || c as int == 0x1FFF || c as int == 0x200B ==> !IsWhitespace(c)
  {}

  lemma {:induction false} TrimStartDrops(s: string) returns (before: string)
    ensures s == before + TrimStart(s) && forall c :: c in before ==> IsWhitespace(c)
  {
    before := "";
    if s != "" && IsWhitespace(s[0]) {
      var fewer := TrimStartDrops(s[1..]);
      before := [s[0]] + fewer;
      assert s == [s[0]] + s[1..];
    }
  }

  lemma {:induction false} TrimEndDrops(s: string) returns (after: string)
    ensures s == TrimEnd(s) + after && forall c :: c in after ==> IsWhitespace(c)
  {
    after := "";
    if s != "" && IsWhitespace(s[|s| - 1]) {
      var fewer := TrimEndDrops(s[..|s| - 1]);
      after := fewer + [s[|s| - 1]];
      assert s == s[..|s| - 1] + [s[|s| - 1]];
    }
  }

  /** Trimming drops surrounding whitespace and nothing else. */
  lemma TrimDropsWhitespace(s: string) returns (before: string, after: string)
    ensures s == before + Trim(s) + after && forall c :: c in before + after ==> IsWhitespace(c)
  {
    before := TrimStartDrops(s);
    after := TrimEndDrops(TrimStart(s));
  }

  // ---- Rules and groups -------------------------------------------------------------------

  datatype RuleKind = ByAppId | ByPrefix | ByCategory

  datatype GroupRule = GroupRule(kind: RuleKind, value: string, exclude: bool)

  /** The rules of the groups of one profile, in display order. A rule list is only ever asked
      whether any of its rules hits, so it is a set here. */
  type RuleList = seq<(string, set<GroupRule>)>

  predicate Hits(r: GroupRule, app: string, cats: seq<string>) {
    match r.kind
    case ByAppId => app == r.value
    case ByPrefix => r.value != "" && r.value <= app
    case ByCategory => r.value in cats
  }

  /** A rule hits the app it names, every app whose id starts with its prefix, and every app of its
      category. */
  lemma RuleHitsExactly(r: GroupRule, app: string, cats: seq<string>)
    ensures r.kind == ByAppId ==> (Hits(r, app, cats) <==> app == r.value)
    ensures r.kind == ByPrefix ==> (Hits(r, app, cats) <==> r.value != "" && exists rest :: app == r.value + rest)
    ensures r.kind == ByCategory ==> (Hits(r, app, cats) <==> exists i :: 0 <= i < |cats| && cats[i] == r.value)
  {
    if r.kind == ByPrefix && r.value <= app { assert app == r.value + app[|r.value|..]; }
  }

  function Include(app: string): GroupRule { GroupRule(ByAppId, app, false) }
  function Exclude(app: string): GroupRule { GroupRule(ByAppId, app, true) }

  predicate Included(rules: set<GroupRule>, app: string, cats: seq<string>) {
    exists r :: r in rules && !r.exclude && Hits(r, app, cats)
  }

  predicate Excluded(rules: set<GroupRule>, app: string, cats: seq<string>) {
    exists r :: r in rules && r.exclude && Hits(r, app, cats)
  }

  predicate GroupMatches(rules: set<GroupRule>, app: string, cats: seq<string>) {
    Included(rules, app, cats) && !Excluded(rules, app, cats)
  }

  /** The group names the app itself and nothing excludes it there. */
  predicate Explicit(rules: set<GroupRule>, app: string, cats: seq<string>) {
    Include(app) in rules && !Excluded(rules, app, cats)
  }

  /** Position of the first group whose rules satisfy `p`, or `|groups|`. */
  function FirstWhere(groups: RuleList, p: set<GroupRule> -> bool): (i: nat)
    ensures i <= |groups|
    ensures forall j :: 0 <= j < i ==> !p(groups[j].1)
    ensures i < |groups| ==> p(groups[i].1)
  {
    if groups == [] || p(groups[0].1) then 0 else 1 + FirstWhere(groups[1..], p)
  }

  function AssignIndex(groups: RuleList, app: string, cats: seq<string>): (i: nat)
    ensures i <= |groups|
  {
    var i := FirstWhere(groups, rules => Explicit(rules, app, cats));
    if i < |groups| then i else FirstWhere(groups, rules => GroupMatches(rules, app, cats))
  }

  /** A group takes an app that an inclusion hits and no exclusion does. */
  lemma MatchesExactly(rules: set<GroupRule>, app: string, cats: seq<string>)
    ensures GroupMatches(rules, app, cats)
        <==> (exists r :: r in rules && !r.exclude && Hits(r, app, cats)) && forall r :: r in rules && Hits(r, app, cats) ==> !r.exclude
    ensures Explicit(rules, app, cats)
        <==> GroupRule(ByAppId, app, false) in rules && forall r :: r in rules && Hits(r, app, cats) ==> !r.exclude
  {}

  /** The one group an app belongs to. */
  function AssignGroup(groups: RuleList, app: string, cats: seq<string>): Option<string> {
    var i := AssignIndex(groups, app, cats);
    if i < |groups| then Some(groups[i].0) else None
  }

  /** Group `i` is the app's group: it names the app and no earlier group does, or no group
      names it and it is the first whose category and prefix rules match. */
  predicate Wins(groups: RuleList, app: string, cats: seq<string>, i: nat)
    requires i < |groups|
  {
    || (Explicit(groups[i].1, app, cats) && forall j :: 0 <= j < i ==> !Explicit(groups[j].1, app, cats))
    || (&& (forall j :: 0 <= j < |groups| ==> !Explicit(groups[j].1, app, cats))
        && GroupMatches(groups[i].1, app, cats)
        && forall j :: 0 <= j < i ==> !GroupMatches(groups[j].1, app, cats))
  }

  /** One group per app: a group wins exactly when its position is the assigned one. */
  lemma AssignIndexIsTheWinner(groups: RuleList, app: string, cats: seq<string>, i: nat)
    requires i < |groups|
    ensures Wins(groups, app, cats, i) <==> AssignIndex(groups, app, cats) == i
  {}

  /** An app has no group exactly when no group matches it: naming an app is one way to match. */
  lemma UnassignedMeansNoMatch(groups: RuleList, app: string, cats: seq<string>)
    ensures AssignGroup(groups, app, cats) == None
        <==> forall j :: 0 <= j < |groups| ==> !GroupMatches(groups[j].1, app, cats)
  {}

  /** The assignment depends on nothing but which groups name and match the app. */
  lemma AssignDependsOnMatches(a: RuleList, b: RuleList, app: string, cats: seq<string>)
    requires |a| == |b|
    requires forall i :: 0 <= i < |a| ==> Explicit(a[i].1, app, cats) == Explicit(b[i].1, app, cats)
    requires forall i :: 0 <= i < |a| ==> GroupMatches(a[i].1, app, cats) == GroupMatches(b[i].1, app, cats)
    ensures AssignIndex(a, app, cats) == AssignIndex(b, app, cats)
  {}
}
