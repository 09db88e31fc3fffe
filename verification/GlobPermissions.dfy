/**
  The glob permissions of agents/permissions.py: a glob is turned into regular-expression text by escaping it and
  rewriting the escaped stars, and resources are matched against that text.

  The text is given its meaning by a parser and a backtracking matcher for the regular expressions that occur here.
 */
module GlobPermissions {
  import opened Common

  // --------------------------------------------------------------------------------------------
  // From glob to regular-expression text
  // --------------------------------------------------------------------------------------------

  /** What `re.escape` puts a backslash before. */
  const Specials := "()[]{}?*+-|^$\\.&~# \t\n\r\U{00000B}\U{00000C}"

  predicate IsSpecial(c: char) {
    c in Specials
  }

  function EscapeChar(c: char): string {
    if IsSpecial(c) then ['\\', c] else [c]
  }

  function Escape(pattern: string): string {
    if |pattern| == 0 then "" else EscapeChar(pattern[0]) + Escape(pattern[1..])
  }

  /** `str.replace`: non-overlapping occurrences from the left. */
  function Replace(s: string, from: string, to: string): string
    requires |from| > 0
  {
    if |s| == 0 then ""
    else if from <= s then to + Replace(s[|from|..], from, to)
    else [s[0]] + Replace(s[1..], from, to)
  }

  const EscapedStar := "\\*"
  const EscapedStars := "\\*\\*"
  const SegmentRegex := "[^/]*"
  const PathRegex := ".*"

  function PatternToRegex(pattern: string): string {
    var escaped := Escape(pattern);
    var paths := Replace(escaped, EscapedStars, PathRegex);
    var segments := Replace(paths, EscapedStar, SegmentRegex);
    "^" + segments + "$"
  }

  // --------------------------------------------------------------------------------------------
  // Globs by token
  // --------------------------------------------------------------------------------------------

  datatype Token = Literal(c: char) | Segment | Path

  function Tokens(pattern: string): seq<Token> {
    if |pattern| == 0 then []
    else if "**" <= pattern then [Path] + Tokens(pattern[2..])
    else if pattern[0] == '*' then [Segment] + Tokens(pattern[1..])
    else [Literal(pattern[0])] + Tokens(pattern[1..])
  }

  function RenderToken(t: Token, segment: string): string {
    match t
    case Literal(c) => EscapeChar(c)
    case Segment => segment
    case Path => PathRegex
  }

  function Render(tokens: seq<Token>, segment: string): string {
    if |tokens| == 0 then "" else RenderToken(tokens[0], segment) + Render(tokens[1..], segment)
  }

  lemma StarsAreSpecial()
    ensures forall c :: c in "\\*.$^[?+{" ==> IsSpecial(c)
    ensures !IsSpecial('/')
  {
  }

  lemma ReplaceStep(c: char, t: string, from: string, to: string)
    requires |from| > 0 && !(from <= [c] + t)
    ensures Replace([c] + t, from, to) == [c] + Replace(t, from, to)
  {
    assert ([c] + t)[1..] == t;
  }

  /** Replacement passes over an escaped character that does not begin an occurrence. */
  lemma ReplacePasses(c: char, t: string, from: string, to: string)
    requires |from| >= 2 && from[0] == '\\' && from[1] == '*'
    requires !(from <= EscapeChar(c) + t)
    requires |t| > 0 ==> t[0] != '*'
    ensures Replace(EscapeChar(c) + t, from, to) == EscapeChar(c) + Replace(t, from, to)
  {
    StarsAreSpecial();
    hide IsSpecial, Replace;
    var u := [c] + t;
    assert u[0] == c && (|t| > 0 ==> u[1] == t[0]);
    assert !(from <= u);
    ReplaceStep(c, t, from, to);
    if IsSpecial(c) {
      assert EscapeChar(c) + t == ['\\'] + u;
      ReplaceStep('\\', u, from, to);
    }
  }

  lemma EscapeStart(pattern: string)
    ensures var t := Escape(pattern); |t| > 0 ==> t[0] != '*'
    ensures EscapedStar <= Escape(pattern) <==> |pattern| > 0 && pattern[0] == '*'
  {
    hide IsSpecial;
    StarsAreSpecial();
    if |pattern| > 0 {
      var t := Escape(pattern);
      if pattern[0] == '*' {
        assert t[..2] == EscapedStar;
      } else {
        assert |t| > 1 && IsSpecial(pattern[0]) ==> t[1] == pattern[0];
      }
    }
  }

  lemma BeginsTwice(piece: string, t: string)
    requires piece + piece <= t
    ensures piece <= t && piece <= t[|piece|..]
  {
    assert forall i :: 0 <= i < |piece| ==> (piece + piece)[i] == piece[i];
    assert forall i :: 0 <= i < |piece| ==> (piece + piece)[|piece| + i] == piece[i];
  }

  /** Two escaped stars begin the escaped text only where two stars begin the pattern. */
  lemma StarsBegin(pattern: string)
    requires EscapedStar + EscapedStar <= Escape(pattern)
    ensures "**" <= pattern
  {
    hide EscapeChar;
    BeginsTwice(EscapedStar, Escape(pattern));
    EscapeStart(pattern);
    StarEscaped();
    assert Escape(pattern)[2..] == Escape(pattern[1..]);
    EscapeStart(pattern[1..]);
  }

  lemma StarsFirst(pattern: string)
    requires "**" <= pattern
    ensures Escape(pattern) == EscapedStars + Escape(pattern[2..])
  {
    hide IsSpecial;
    StarsAreSpecial();
    assert Escape(pattern[1..]) == EscapedStar + Escape(pattern[2..]);
  }

  lemma {:induction false} FirstReplacement(pattern: string)
    ensures Replace(Escape(pattern), EscapedStars, PathRegex) == Render(Tokens(pattern), EscapedStar)
  {
    hide EscapeChar;
    if |pattern| == 0 {
    } else if "**" <= pattern {
      hide Escape;
      StarsFirst(pattern);
      assert (EscapedStars + Escape(pattern[2..]))[4..] == Escape(pattern[2..]);
      FirstReplacement(pattern[2..]);
    } else {
      hide Replace;
      assert EscapedStars == EscapedStar + EscapedStar;
      assert !(EscapedStars <= Escape(pattern)) by {
        if EscapedStars <= Escape(pattern) {
          StarsBegin(pattern);
        }
      }
      EscapeStart(pattern[1..]);
      ReplacePasses(pattern[0], Escape(pattern[1..]), EscapedStars, PathRegex);
      FirstReplacement(pattern[1..]);
      assert EscapeChar('*') == EscapedStar by { StarEscaped(); }
    }
  }

  lemma StarEscaped()
    ensures EscapeChar('*') == EscapedStar
  {
    StarsAreSpecial();
  }

  lemma RenderStart(pattern: string, segment: string)
    requires |segment| > 0 && segment[0] != '*'
    ensures var t := Render(Tokens(pattern), segment); |t| > 0 ==> t[0] != '*'
  {
    StarsAreSpecial();
  }

  lemma {:induction false} SecondReplacement(pattern: string)
    ensures Replace(Render(Tokens(pattern), EscapedStar), EscapedStar, SegmentRegex)
         == Render(Tokens(pattern), SegmentRegex)
  {
    hide IsSpecial;
    StarsAreSpecial();
    if |pattern| == 0 {
    } else if "**" <= pattern {
      var rest := Render(Tokens(pattern[2..]), EscapedStar);
      var text := PathRegex + rest;
      assert text[1..] == "*" + rest && ("*" + rest)[1..] == rest;
      assert text[0] == '.' && ("*" + rest)[0] == '*';
      assert Replace("*" + rest, EscapedStar, SegmentRegex) == "*" + Replace(rest, EscapedStar, SegmentRegex);
      assert Replace(text, EscapedStar, SegmentRegex) == PathRegex + Replace(rest, EscapedStar, SegmentRegex);
      assert Render(Tokens(pattern), EscapedStar) == text;
      SecondReplacement(pattern[2..]);
    } else {
      var rest := Render(Tokens(pattern[1..]), EscapedStar);
      SecondReplacement(pattern[1..]);
      if pattern[0] == '*' {
        assert (EscapedStar + rest)[2..] == rest;
      } else {
        RenderStart(pattern[1..], EscapedStar);
        var text := EscapeChar(pattern[0]) + rest;
        assert IsSpecial(pattern[0]) ==> text[1] == pattern[0];
        ReplacePasses(pattern[0], rest, EscapedStar, SegmentRegex);
      }
    }
  }

  /** Rewriting the whole text twice gives the same text as compiling the glob token by token. */
  lemma RegexTextByTokens(pattern: string)
    ensures PatternToRegex(pattern) == "^" + Render(Tokens(pattern), SegmentRegex) + "$"
  {
    FirstReplacement(pattern);
    SecondReplacement(pattern);
  }

  // --------------------------------------------------------------------------------------------
  // What the text means
  // --------------------------------------------------------------------------------------------

  datatype Atom = Char(c: char) | AnyButNewline | NotSlash

  datatype Item = Item(atom: Atom, starred: bool)

  /** An escaped special character, a dot, the class of all characters but the slash, or an ordinary character. */
  function ParseAtom(t: string): (r: Option<(Atom, string)>)
    ensures r.Some? ==> |r.value.1| < |t|
  {
    if |t| == 0 then None
    else if t[0] == '\\' then
      if |t| > 1 && IsSpecial(t[1]) then Some((Char(t[1]), t[2..])) else None
    else if t[0] == '.' then Some((AnyButNewline, t[1..]))
    else if "[^/]" <= t then Some((NotSlash, t[4..]))
    else if t[0] in "^$*+?{[|()" then None
    else Some((Char(t[0]), t[1..]))
  }

  /** Atoms with their stars, up to the closing `$`. */
  function ParseItems(t: string): Option<seq<Item>>
    decreases |t|
  {
    if t == "$" then Some([])
    else
      match ParseAtom(t)
      case None => None
      case Some((atom, rest)) =>
        var starred := |rest| > 0 && rest[0] == '*';
        match ParseItems(if starred then rest[1..] else rest)
        case None => None
        case Some(items) => Some([Item(atom, starred)] + items)
  }

  function ParseRegex(text: string): Option<seq<Item>> {
    if |text| > 0 && text[0] == '^' then ParseItems(text[1..]) else None
  }

  predicate Accepts(a: Atom, c: char) {
    match a
    case Char(d) => c == d
    case AnyButNewline => c != '\n'
    case NotSlash => c != '/'
  }

  /** Where `$` matches: at the end, and before a newline that ends the string. */
  predicate AtEnd(s: string) {
    s == "" || s == "\n"
  }

  /** `re.match`, by backtracking. */
  predicate Match(items: seq<Item>, s: string)
    decreases |items| + |s|
  {
    if |items| == 0 then AtEnd(s)
    else if items[0].starred then
      Match(items[1..], s) || (|s| > 0 && Accepts(items[0].atom, s[0]) && Match(items, s[1..]))
    else |s| > 0 && Accepts(items[0].atom, s[0]) && Match(items[1..], s[1..])
  }

  /** `re.match(self._pattern_to_regex(pattern), resource)`. */
  predicate PatternMatches(pattern: string, resource: string) {
    var regex := ParseRegex(PatternToRegex(pattern));
    regex.Some? && Match(regex.value, resource)
  }

  function ItemOf(t: Token): Item {
    match t
    case Literal(c) => Item(Char(c), false)
    case Segment => Item(NotSlash, true)
    case Path => Item(AnyButNewline, true)
  }

  function Items(tokens: seq<Token>): (items: seq<Item>)
    ensures |items| == |tokens|
  {
    if |tokens| == 0 then [] else [ItemOf(tokens[0])] + Items(tokens[1..])
  }

  lemma ParsePiece(t: Token, rest: string)
    requires t != Literal('*') && |rest| > 0 && rest[0] != '*'
    ensures var text := RenderToken(t, SegmentRegex) + rest;
            var r := ParseAtom(text);
            && text != "$" && r.Some? && r.value.0 == ItemOf(t).atom
            && r.value.1 == if ItemOf(t).starred then "*" + rest else rest
  {
    var text := RenderToken(t, SegmentRegex) + rest;
    if t == Segment {
      assert "[^/]" <= text && text[4..] == "*" + rest;
    }
  }

  lemma ParseNext(t: Token, rest: string, items: seq<Item>)
    requires t != Literal('*') && |rest| > 0 && rest[0] != '*'
    requires ParseItems(rest) == Some(items)
    ensures ParseItems(RenderToken(t, SegmentRegex) + rest) == Some([ItemOf(t)] + items)
  {
    hide ParseAtom, ItemOf, RenderToken;
    ParsePiece(t, rest);
    assert ("*" + rest)[1..] == rest;
  }

  lemma {:induction false} ParseRendered(pattern: string)
    ensures ParseItems(Render(Tokens(pattern), SegmentRegex) + "$") == Some(Items(Tokens(pattern)))
  {
    if |pattern| > 0 {
      hide ParseItems, RenderToken, ItemOf;
      var tokens := Tokens(pattern);
      var after := if "**" <= pattern then pattern[2..] else pattern[1..];
      assert tokens[1..] == Tokens(after);
      ParseRendered(after);
      var rest := Render(tokens[1..], SegmentRegex) + "$";
      RenderStart(after, SegmentRegex);
      ParseNext(tokens[0], rest, Items(tokens[1..]));
      assert Render(tokens, SegmentRegex) + "$" == RenderToken(tokens[0], SegmentRegex) + rest;
    }
  }

  // --------------------------------------------------------------------------------------------
  // What the glob means
  // --------------------------------------------------------------------------------------------

  function Concat(parts: seq<string>): string {
    if |parts| == 0 then "" else parts[0] + Concat(parts[1..])
  }

  /** `*` stands for any text without a slash, `**` for any text, and every other character for itself. */
  predicate Fits(t: Token, part: string) {
    match t
    case Literal(c) => part == [c]
    case Segment => '/' !in part
    case Path => true
  }

  predicate Splits(tokens: seq<Token>, parts: seq<string>, s: string) {
    |parts| == |tokens| && Concat(parts) == s && forall i :: 0 <= i < |tokens| ==> Fits(tokens[i], parts[i])
  }

  /** The text can be cut into parts that fit the glob's tokens in order. */
  ghost predicate GlobMatches(pattern: string, s: string) {
    exists parts :: Splits(Tokens(pattern), parts, s)
  }

  predicate PathsStayOnLine(tokens: seq<Token>, parts: seq<string>)
    requires |parts| == |tokens|
  {
    forall i :: 0 <= i < |tokens| && tokens[i].Path? ==> '\n' !in parts[i]
  }

  /** The same, with no newline inside a `**`. */
  ghost predicate LineMatches(pattern: string, s: string) {
    exists parts :: Splits(Tokens(pattern), parts, s) && PathsStayOnLine(Tokens(pattern), parts)
  }

  lemma {:induction false} MatchSplits(tokens: seq<Token>, s: string) returns (parts: seq<string>, tail: string)
    requires Match(Items(tokens), s)
    ensures AtEnd(tail) && Concat(parts) + tail == s
    ensures Splits(tokens, parts, Concat(parts)) && PathsStayOnLine(tokens, parts)
    decreases |tokens| + |s|
  {
    if |tokens| == 0 {
      parts, tail := [], s;
    } else {
      var items, t := Items(tokens), tokens[0];
      assert items[1..] == Items(tokens[1..]);
      if items[0].starred && Match(items[1..], s) {
        var ps, u := MatchSplits(tokens[1..], s);
        parts, tail := [""] + ps, u;
      } else if items[0].starred {
        var ps, u := MatchSplits(tokens, s[1..]);
        parts, tail := [[s[0]] + ps[0]] + ps[1..], u;
        assert Concat(parts) == [s[0]] + Concat(ps);
      } else {
        var ps, u := MatchSplits(tokens[1..], s[1..]);
        parts, tail := [[s[0]]] + ps, u;
      }
    }
  }

  lemma {:induction false} StarMatches(item: Item, rest: seq<Item>, part: string, s: string)
    requires item.starred && (forall c :: c in part ==> Accepts(item.atom, c)) && Match(rest, s)
    ensures Match([item] + rest, part + s)
  {
    var items := [item] + rest;
    assert items[1..] == rest;
    if |part| == 0 {
      assert part + s == s;
    } else {
      StarMatches(item, rest, part[1..], s);
      assert (part + s)[1..] == part[1..] + s;
    }
  }

  lemma {:induction false} SplitsMatch(tokens: seq<Token>, parts: seq<string>, tail: string)
    requires Splits(tokens, parts, Concat(parts)) && PathsStayOnLine(tokens, parts) && AtEnd(tail)
    ensures Match(Items(tokens), Concat(parts) + tail)
  {
    if |tokens| == 0 {
      assert Concat(parts) + tail == tail;
    } else {
      SplitsMatch(tokens[1..], parts[1..], tail);
      var rest := Concat(parts[1..]) + tail;
      assert Concat(parts) + tail == parts[0] + rest;
      assert Fits(tokens[0], parts[0]);
      if tokens[0].Literal? {
        assert (parts[0] + rest)[1..] == rest;
      } else {
        StarMatches(ItemOf(tokens[0]), Items(tokens[1..]), parts[0], rest);
      }
    }
  }

  lemma ParsedPattern(pattern: string, resource: string)
    ensures PatternMatches(pattern, resource) <==> Match(Items(Tokens(pattern)), resource)
  {
    hide Match, Items, Tokens, Render, ParseItems, PatternToRegex;
    RegexTextByTokens(pattern);
    ParseRendered(pattern);
    var body := Render(Tokens(pattern), SegmentRegex) + "$";
    assert PatternToRegex(pattern) == "^" + body;
    assert ("^" + body)[1..] == body;
  }

  /** Exactly what a pattern matches: what its glob does, except that `**` stops at newlines and that one newline at
      the end of the resource is overlooked. */
  lemma PatternMatchesIff(pattern: string, s: string)
    ensures PatternMatches(pattern, s) <==>
            LineMatches(pattern, s) || (|s| > 0 && s[|s| - 1] == '\n' && LineMatches(pattern, s[..|s| - 1]))
  {
    hide PatternMatches, Match, Items;
    ParsedPattern(pattern, s);
    var tokens := Tokens(pattern);
    if Match(Items(tokens), s) {
      var parts, tail := MatchSplits(tokens, s);
      assert tail == "" ==> Concat(parts) == s;
      assert tail == "\n" ==> Concat(parts) == s[..|s| - 1];
    }
    if LineMatches(pattern, s) {
      var parts :| Splits(tokens, parts, s) && PathsStayOnLine(tokens, parts);
      SplitsMatch(tokens, parts, "");
      assert Concat(parts) + "" == s;
    }
    if |s| > 0 && s[|s| - 1] == '\n' && LineMatches(pattern, s[..|s| - 1]) {
      var parts :| Splits(tokens, parts, s[..|s| - 1]) && PathsStayOnLine(tokens, parts);
      SplitsMatch(tokens, parts, "\n");
      assert Concat(parts) + "\n" == s;
    }
  }

  lemma {:induction false} PartsLieInside(parts: seq<string>, i: nat, c: char)
    requires i < |parts| && c in parts[i]
    ensures c in Concat(parts)
  {
    if i > 0 {
      PartsLieInside(parts[1..], i - 1, c);
    }
  }

  lemma LineMatchesIsGlob(pattern: string, s: string)
    requires '\n' !in s
    ensures LineMatches(pattern, s) <==> GlobMatches(pattern, s)
  {
    var tokens := Tokens(pattern);
    if GlobMatches(pattern, s) {
      var parts :| Splits(tokens, parts, s);
      forall i | 0 <= i < |tokens| && tokens[i].Path?
        ensures '\n' !in parts[i]
      {
        if '\n' in parts[i] {
          PartsLieInside(parts, i, '\n');
        }
      }
      assert PathsStayOnLine(tokens, parts);
    }
  }

  /** On resources without newlines, the regular expression matches exactly when the glob does. */
  lemma RegexMeansGlob(pattern: string, resource: string)
    requires '\n' !in resource
    ensures PatternMatches(pattern, resource) <==> GlobMatches(pattern, resource)
  {
    hide PatternMatches, LineMatches, GlobMatches;
    PatternMatchesIff(pattern, resource);
    LineMatchesIsGlob(pattern, resource);
  }

  /** With newlines it need not, either way round. */
  lemma NewlinesBreakTheGlob()
    ensures PatternMatches("a", "a\n") && !GlobMatches("a", "a\n")
    ensures !PatternMatches("**", "\na") && GlobMatches("**", "\na")
  {
    hide PatternMatches;
    var a, path := Tokens("a"), Tokens("**");
    assert a == [Literal('a')] && path == [Path];
    PatternMatchesIff("a", "a\n");
    assert Concat(["a"]) == "a";
    assert Splits(a, ["a"], "a") && PathsStayOnLine(a, ["a"]);
    assert LineMatches("a", "a\n"[..1]);
    PatternMatchesIff("**", "\na");
    assert Concat(["\na"]) == "\na";
    assert Splits(path, ["\na"], "\na");
    forall parts | |parts| == 1
      ensures Concat(parts) == parts[0]
    {
    }
  }

  // --------------------------------------------------------------------------------------------
  // Roles
  // --------------------------------------------------------------------------------------------

  datatype AgentRole = Researcher | Analyst | RiskController | Ops

  predicate Allows(patterns: seq<string>, resource: string) {
    exists i :: 0 <= i < |patterns| && PatternMatches(patterns[i], resource)
  }

  datatype RolePermissions = RolePermissions(canRead: seq<string>, canWrite: seq<string>) {
    method CanReadResource(resource: string) returns (allowed: bool)
      ensures allowed <==> Allows(canRead, resource)
    {
      allowed := AnyMatch(canRead, resource);
    }

    method CanWriteResource(resource: string) returns (allowed: bool)
      ensures allowed <==> Allows(canWrite, resource)
    {
      allowed := AnyMatch(canWrite, resource);
    }
  }

  method AnyMatch(patterns: seq<string>, resource: string) returns (found: bool)
    ensures found <==> Allows(patterns, resource)
  {
    hide PatternMatches;
    for i := 0 to |patterns|
      invariant forall j :: 0 <= j < i ==> !PatternMatches(patterns[j], resource)
    {
      if PatternMatches(patterns[i], resource) {
        return true;
      }
    }
    found := false;
  }

  const DefaultPermissions := map[
    Researcher := RolePermissions(
      ["strategies/*", "strategies/**", "backtest/*", "backtest/**", "logs/*", "logs/**"],
      ["strategies/examples/*", "strategies/examples/**", "agents/outputs/*", "agents/outputs/**"]),
    Analyst := RolePermissions(
      ["market_data/*", "market_data/**", "news/*", "news/**"],
      ["redis:sentiment:*", "redis:events:*"]),
    RiskController := RolePermissions(
      ["portfolio/*", "portfolio/**", "risk/*", "risk/**", "market_data/*", "market_data/**"],
      ["redis:risk_bias"]),
    Ops := RolePermissions(
      ["broker/*", "broker/**", "reconciliation/*", "reconciliation/**", "logs/*", "logs/**", "health/*", "health/**"],
      ["logs/*", "logs/**", "agents/outputs/*", "agents/outputs/**"])
  ]

  lemma LiteralToken(c: char, pattern: string)
    requires c != '*'
    ensures Tokens([c] + pattern) == [Literal(c)] + Tokens(pattern)
  {
    assert ([c] + pattern)[1..] == pattern && ([c] + pattern)[0] == c;
    assert !("**" <= [c] + pattern);
  }

  lemma LiteralSplit(c: char, rest: seq<Token>, parts: seq<string>, s: string)
    requires Splits([Literal(c)] + rest, parts, s) && PathsStayOnLine([Literal(c)] + rest, parts)
    ensures |s| > 0 && s[0] == c && Splits(rest, parts[1..], s[1..]) && PathsStayOnLine(rest, parts[1..])
  {
    var tokens := [Literal(c)] + rest;
    assert Fits(tokens[0], parts[0]);
    assert s == [c] + Concat(parts[1..]);
    assert forall i :: 0 <= i < |rest| ==> tokens[i + 1] == rest[i] && parts[i + 1] == parts[1..][i];
  }

  lemma LiteralJoin(c: char, rest: seq<Token>, parts: seq<string>, s: string)
    requires Splits(rest, parts, s) && PathsStayOnLine(rest, parts)
    ensures Splits([Literal(c)] + rest, [[c]] + parts, [c] + s)
    ensures PathsStayOnLine([Literal(c)] + rest, [[c]] + parts)
  {
    assert ([[c]] + parts)[1..] == parts;
  }

  lemma LiteralLine(c: char, pattern: string, s: string)
    requires c != '*'
    ensures LineMatches([c] + pattern, s) <==> |s| > 0 && s[0] == c && LineMatches(pattern, s[1..])
  {
    hide Tokens, PathsStayOnLine, Concat, Fits;
    var tokens, rest := Tokens([c] + pattern), Tokens(pattern);
    LiteralToken(c, pattern);
    if LineMatches([c] + pattern, s) {
      var parts :| Splits(tokens, parts, s) && PathsStayOnLine(tokens, parts);
      LiteralSplit(c, rest, parts, s);
    }
    if |s| > 0 && s[0] == c && LineMatches(pattern, s[1..]) {
      var parts :| Splits(rest, parts, s[1..]) && PathsStayOnLine(rest, parts);
      LiteralJoin(c, rest, parts, s[1..]);
      assert [c] + s[1..] == s;
    }
  }

  lemma {:induction false} LiteralPrefixLine(prefix: string, pattern: string, s: string)
    requires '*' !in prefix
    ensures LineMatches(prefix + pattern, s) <==> prefix <= s && LineMatches(pattern, s[|prefix|..])
  {
    hide LineMatches;
    if |prefix| == 0 {
      assert prefix + pattern == pattern && s[0..] == s;
    } else {
      var c, rest := prefix[0], prefix[1..];
      assert prefix + pattern == [c] + (rest + pattern);
      LiteralLine(c, rest + pattern, s);
      if |s| > 0 {
        LiteralPrefixLine(rest, pattern, s[1..]);
        assert rest <= s[1..] ==> s[1..][|rest|..] == s[|prefix|..];
        assert prefix <= s <==> s[0] == c && rest <= s[1..];
      }
    }
  }

  lemma WildcardLines(s: string)
    ensures LineMatches("", s) <==> s == ""
    ensures LineMatches("*", s) <==> '/' !in s
    ensures LineMatches("**", s) <==> '\n' !in s
  {
    assert Tokens("") == [] && Tokens("*") == [Segment] && Tokens("**") == [Path];
    forall parts: seq<string> | |parts| == 1
      ensures Concat(parts) == parts[0]
    {
    }
    assert Concat([]) == "" && Concat([s]) == s;
    assert s == "" ==> Splits([], [], s) && PathsStayOnLine([], []);
    assert '/' !in s ==> Splits([Segment], [s], s) && PathsStayOnLine([Segment], [s]);
    assert '\n' !in s ==> Splits([Path], [s], s) && PathsStayOnLine([Path], [s]);
    forall parts | Splits([Segment], parts, s)
      ensures '/' !in s
    {
      assert Fits([Segment][0], parts[0]);
    }
    forall parts | Splits([Path], parts, s) && PathsStayOnLine([Path], parts)
      ensures '\n' !in s
    {
      assert [Path][0].Path? && parts[0] == s;
    }
  }

  /** No newline except possibly one at the end. */
  predicate OneLine(s: string) {
    '\n' !in s || (s[|s| - 1] == '\n' && '\n' !in s[..|s| - 1])
  }

  /** A literal beginning of a pattern is a literal beginning of what it matches. */
  lemma PrefixPattern(prefix: string, pattern: string, s: string)
    requires '*' !in prefix
    ensures PatternMatches(prefix + pattern, s) <==> prefix <= s && PatternMatches(pattern, s[|prefix|..])
  {
    hide PatternMatches, LineMatches;
    PatternMatchesIff(prefix + pattern, s);
    LiteralPrefixLine(prefix, pattern, s);
    if |s| > 0 {
      LiteralPrefixLine(prefix, pattern, s[..|s| - 1]);
    }
    if prefix <= s {
      var rest := s[|prefix|..];
      PatternMatchesIff(pattern, rest);
      if |rest| > 0 {
        assert s[..|s| - 1][|prefix|..] == rest[..|rest| - 1];
      }
    }
  }

  lemma WildcardPatterns(s: string)
    ensures PatternMatches("", s) <==> s == "" || s == "\n"
    ensures PatternMatches("*", s) <==> '/' !in s
    ensures PatternMatches("**", s) <==> OneLine(s)
  {
    hide PatternMatches, LineMatches;
    PatternMatchesIff("", s);
    PatternMatchesIff("*", s);
    PatternMatchesIff("**", s);
    WildcardLines(s);
    if |s| > 0 {
      WildcardLines(s[..|s| - 1]);
      assert s == s[..|s| - 1] + [s[|s| - 1]];
    }
  }

  /** What the three shapes of default pattern grant. */
  lemma PatternShapes(prefix: string, s: string)
    requires '*' !in prefix
    ensures PatternMatches(prefix + "*", s) <==> KeyOf(prefix, s)
    ensures PatternMatches(prefix + "**", s) <==> prefix <= s && OneLine(s[|prefix|..])
    ensures PatternMatches(prefix, s) <==> IsKey(prefix, s)
  {
    hide PatternMatches, OneLine;
    PrefixPattern(prefix, "*", s);
    PrefixPattern(prefix, "**", s);
    PrefixPattern(prefix, "", s);
    assert prefix + "" == prefix;
    if prefix <= s {
      WildcardPatterns(s[|prefix|..]);
    }
  }

  /** The key itself, or the key and a newline. */
  predicate IsKey(key: string, s: string) {
    key <= s && s[|key|..] in {"", "\n"}
  }

  predicate KeyOf(prefix: string, s: string) {
    prefix <= s && '/' !in s[|prefix|..]
  }

  /** Under a directory: directly in it, or anywhere below it on one line. */
  predicate Below(directory: string, s: string) {
    directory <= s && ('/' !in s[|directory|..] || OneLine(s[|directory|..]))
  }

  function Grants(directories: seq<string>): seq<string> {
    if |directories| == 0 then []
    else Grants(directories[..|directories| - 1])
         + [directories[|directories| - 1] + "*", directories[|directories| - 1] + "**"]
  }

  predicate Under(directories: seq<string>, s: string) {
    exists d :: d in directories && Below(d, s)
  }

  lemma AllowsConcat(some: seq<string>, more: seq<string>, s: string)
    ensures Allows(some + more, s) <==> Allows(some, s) || Allows(more, s)
  {
    hide PatternMatches;
    if Allows(some, s) {
      var i :| 0 <= i < |some| && PatternMatches(some[i], s);
      assert (some + more)[i] == some[i];
    }
    if Allows(more, s) {
      var i :| 0 <= i < |more| && PatternMatches(more[i], s);
      assert (some + more)[|some| + i] == more[i];
    }
  }

  lemma UnderAppend(ds: seq<string>, d: string, s: string)
    ensures Under(ds + [d], s) <==> Under(ds, s) || Below(d, s)
  {
    hide Below;
    assert d in ds + [d];
    assert forall e :: e in ds + [d] <==> e in ds || e == d;
  }

  lemma AllowsPair(p: string, q: string, s: string)
    ensures Allows([p, q], s) <==> PatternMatches(p, s) || PatternMatches(q, s)
  {
    hide PatternMatches;
    assert [p, q][0] == p && [p, q][1] == q;
  }

  lemma {:induction false} GrantsAllow(directories: seq<string>, s: string)
    requires forall d :: d in directories ==> '*' !in d
    ensures Allows(Grants(directories), s) <==> Under(directories, s)
  {
    hide PatternMatches, OneLine;
    if |directories| > 0 {
      var n := |directories| - 1;
      var before, d := directories[..n], directories[n];
      GrantsAllow(before, s);
      PatternShapes(d, s);
      var all, some := Grants(directories), Grants(before);
      assert all == some + [d + "*", d + "**"];
      AllowsConcat(some, [d + "*", d + "**"], s);
      AllowsPair(d + "*", d + "**", s);
      UnderAppend(before, d, s);
      assert directories == before + [d];
    }
  }

  function ReadDirectories(role: AgentRole): seq<string> {
    match role
    case Researcher => ["strategies/", "backtest/", "logs/"]
    case Analyst => ["market_data/", "news/"]
    case RiskController => ["portfolio/", "risk/", "market_data/"]
    case Ops => ["broker/", "reconciliation/", "logs/", "health/"]
  }

  lemma GrantPair(d: string)
    ensures Grants([d]) == [d + "*", d + "**"]
  {
    assert [d][..0] == [];
  }

  lemma {:induction false} GrantsConcat(ds: seq<string>, d: string)
    ensures Grants(ds + [d]) == Grants(ds) + [d + "*", d + "**"]
  {
    assert (ds + [d])[..|ds|] == ds;
  }

  lemma ReadPatternsAreGrants(role: AgentRole)
    ensures DefaultPermissions[role].canRead == Grants(ReadDirectories(role))
  {
    hide Grants;
    var ds := ReadDirectories(role);
    GrantPair(ds[0]);
    GrantsConcat(ds[..1], ds[1]);
    assert ds[..1] == [ds[0]] && ds[..1] + [ds[1]] == ds[..2];
    if |ds| > 2 {
      GrantsConcat(ds[..2], ds[2]);
      assert ds[..2] + [ds[2]] == ds[..3];
    }
    if |ds| > 3 {
      GrantsConcat(ds[..3], ds[3]);
      assert ds[..3] + [ds[3]] == ds[..4];
    }
    assert ds[..|ds|] == ds;
    match role
    case Researcher =>
      assert "strategies/" + "*" == "strategies/*" && "strategies/" + "**" == "strategies/**";
      assert "backtest/" + "*" == "backtest/*" && "backtest/" + "**" == "backtest/**";
      assert "logs/" + "*" == "logs/*" && "logs/" + "**" == "logs/**";
    case Analyst =>
      assert "market_data/" + "*" == "market_data/*" && "market_data/" + "**" == "market_data/**";
      assert "news/" + "*" == "news/*" && "news/" + "**" == "news/**";
    case RiskController =>
      assert "portfolio/" + "*" == "portfolio/*" && "portfolio/" + "**" == "portfolio/**";
      assert "risk/" + "*" == "risk/*" && "risk/" + "**" == "risk/**";
      assert "market_data/" + "*" == "market_data/*" && "market_data/" + "**" == "market_data/**";
    case Ops =>
      assert "broker/" + "*" == "broker/*" && "broker/" + "**" == "broker/**";
      assert "reconciliation/" + "*" == "reconciliation/*" && "reconciliation/" + "**" == "reconciliation/**";
      assert "logs/" + "*" == "logs/*" && "logs/" + "**" == "logs/**";
      assert "health/" + "*" == "health/*" && "health/" + "**" == "health/**";
  }

  /** Each role reads exactly what lies under its directories, newlines past the first directory level excepted. */
  lemma DefaultReads(role: AgentRole, s: string)
    ensures Allows(DefaultPermissions[role].canRead, s) <==> Under(ReadDirectories(role), s)
  {
    hide PatternMatches, Grants, Allows;
    ReadPatternsAreGrants(role);
    GrantsAllow(ReadDirectories(role), s);
  }

  /** Each role writes exactly this: two roles to directories of their own, two only to Redis keys. */
  lemma DefaultWrites(s: string)
    ensures Allows(DefaultPermissions[Researcher].canWrite, s)
       <==> Under(["strategies/examples/", "agents/outputs/"], s)
    ensures Allows(DefaultPermissions[Ops].canWrite, s) <==> Under(["logs/", "agents/outputs/"], s)
    ensures Allows(DefaultPermissions[Analyst].canWrite, s)
       <==> KeyOf("redis:sentiment:", s) || KeyOf("redis:events:", s)
    ensures Allows(DefaultPermissions[RiskController].canWrite, s) <==> IsKey("redis:risk_bias", s)
  {
    hide PatternMatches, Under, KeyOf;
    DirectoryWrites(s);
    KeyWrites(s);
  }

  lemma DirectoryWrites(s: string)
    ensures Allows(DefaultPermissions[Researcher].canWrite, s)
       <==> Under(["strategies/examples/", "agents/outputs/"], s)
    ensures Allows(DefaultPermissions[Ops].canWrite, s) <==> Under(["logs/", "agents/outputs/"], s)
  {
    hide PatternMatches, Under, Allows;
    TwoDirectories("strategies/examples/", "agents/outputs/", s);
    TwoDirectories("logs/", "agents/outputs/", s);
    assert "strategies/examples/" + "*" == "strategies/examples/*";
    assert "strategies/examples/" + "**" == "strategies/examples/**";
    assert "agents/outputs/" + "*" == "agents/outputs/*" && "agents/outputs/" + "**" == "agents/outputs/**";
    assert "logs/" + "*" == "logs/*" && "logs/" + "**" == "logs/**";
  }

  lemma KeyWrites(s: string)
    ensures Allows(DefaultPermissions[Analyst].canWrite, s)
       <==> KeyOf("redis:sentiment:", s) || KeyOf("redis:events:", s)
    ensures Allows(DefaultPermissions[RiskController].canWrite, s) <==> IsKey("redis:risk_bias", s)
  {
    hide PatternMatches, KeyOf, OneLine;
    PatternShapes("redis:sentiment:", s);
    PatternShapes("redis:events:", s);
    AllowsPair("redis:sentiment:*", "redis:events:*", s);
    assert "redis:sentiment:" + "*" == "redis:sentiment:*" && "redis:events:" + "*" == "redis:events:*";
    PatternShapes("redis:risk_bias", s);
    assert ["redis:risk_bias"][0] == "redis:risk_bias";
  }

  lemma TwoDirectories(d: string, e: string, s: string)
    requires '*' !in d && '*' !in e
    ensures Allows([d + "*", d + "**", e + "*", e + "**"], s) <==> Under([d, e], s)
  {
    hide PatternMatches, Grants;
    GrantPair(d);
    GrantsConcat([d], e);
    assert [d] + [e] == [d, e];
    assert Grants([d, e]) == [d + "*", d + "**", e + "*", e + "**"];
    GrantsAllow([d, e], s);
  }
}
