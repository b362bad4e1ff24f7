/** Tool names as models may see them (tools/name_mapping.py): cleaning a name up, and the two-way
mapping between real names and aliases, under the default rules. */
module ToolNames {
  import opened Wrappers

  const MAX_LENGTH := 64
  const SUFFIX_LENGTH := 6

  predicate IsSafe(c: char) {
    'a' <= c <= 'z' || 'A' <= c <= 'Z' || '0' <= c <= '9' || c == '_' || c == '-'
  }

  predicate AllSafe(s: string) {
    forall i :: 0 <= i < |s| ==> IsSafe(s[i])
  }

  /** The pattern of the default rules: 1 to 64 safe characters. */
  predicate Matches(s: string) {
    1 <= |s| <= MAX_LENGTH && AllSafe(s)
  }

  // Cleaning up

  const Unsafe: char -> bool := c => !IsSafe(c)
  const Underscore: char -> bool := c => c == '_'
  const Joint: char -> bool := c => c == '_' || c == '-'

  function LStrip(s: string, p: char -> bool): (r: string)
    ensures |r| <= |s| && r == s[|s| - |r|..] && (r != "" ==> !p(r[0]))
  {
    if s != "" && p(s[0]) then LStrip(s[1..], p) else s
  }

  function RStrip(s: string, p: char -> bool): (r: string)
    ensures r <= s && (r != "" ==> !p(r[|r| - 1]))
    ensures forall i :: |r| <= i < |s| ==> p(s[i])
  {
    if s != "" && p(s[|s| - 1]) then RStrip(s[..|s| - 1], p) else s
  }

  /** Every longest run of characters satisfying `p` becomes one underscore. */
  function SubRuns(s: string, p: char -> bool): string {
    if s == "" then ""
    else if p(s[0]) then "_" + SubRuns(LStrip(s[1..], p), p)
    else [s[0]] + SubRuns(s[1..], p)
  }

  function OrTool(s: string): string {
    if s == "" then "tool" else s
  }

  function Trimmed(name: string): string {
    RStrip(LStrip(SubRuns(SubRuns(name, Unsafe), Underscore), Underscore), Underscore)
  }

  function Sanitize(name: string): string {
    var stripped := OrTool(Trimmed(name));
    if |stripped| > MAX_LENGTH then OrTool(RStrip(stripped[..MAX_LENGTH], Underscore)) else stripped
  }

  predicate NoDouble(s: string) {
    forall i :: 0 <= i < |s| - 1 ==> s[i] != '_' || s[i + 1] != '_'
  }

  /** A clean name: it matches the pattern, has no underscore at either end and no two in a row. */
  predicate Clean(s: string) {
    Matches(s) && NoDouble(s) && s[0] != '_' && s[|s| - 1] != '_'
  }

  lemma {:induction false} SubRunsSafe(s: string, p: char -> bool)
    requires forall c :: p(c) || IsSafe(c)
    ensures AllSafe(SubRuns(s, p))
    decreases |s|
  {
    if s != "" {
      SubRunsSafe(if p(s[0]) then LStrip(s[1..], p) else s[1..], p);
    }
  }

  lemma {:induction false} SubRunsKeepsSafe(s: string, p: char -> bool)
    requires AllSafe(s)
    ensures AllSafe(SubRuns(s, p))
    decreases |s|
  {
    if s != "" {
      assert IsSafe(s[0]);
      SubRunsKeepsSafe(if p(s[0]) then LStrip(s[1..], p) else s[1..], p);
    }
  }

  lemma {:induction false} UnderscoresCollapse(s: string)
    ensures NoDouble(SubRuns(s, Underscore))
    ensures s != "" ==> SubRuns(s, Underscore) != "" && SubRuns(s, Underscore)[0] == s[0]
    decreases |s|
  {
    if s != "" {
      var rest := if Underscore(s[0]) then LStrip(s[1..], Underscore) else s[1..];
      UnderscoresCollapse(rest);
      var r := SubRuns(s, Underscore);
      assert r == [s[0]] + SubRuns(rest, Underscore);
      forall i | 0 <= i < |r| - 1
        ensures r[i] != '_' || r[i + 1] != '_'
      {
        assert i > 0 ==> r[i] == SubRuns(rest, Underscore)[i - 1];
        assert r[i + 1] == SubRuns(rest, Underscore)[i];
      }
    }
  }

  lemma {:induction false} SafeStays(s: string)
    requires AllSafe(s)
    ensures SubRuns(s, Unsafe) == s
  {
    if s != "" {
      assert IsSafe(s[0]);
      SafeStays(s[1..]);
    }
  }

  lemma AfterUnderscore(s: string)
    requires NoDouble(s) && s != ""
    ensures s[0] == '_' ==> LStrip(s[1..], Underscore) == s[1..]
  {
    assert |s| > 1 && s[0] == '_' ==> s[1] != '_';
  }

  lemma {:induction false} NoDoubleStays(s: string)
    requires NoDouble(s)
    ensures SubRuns(s, Underscore) == s
  {
    if s != "" {
      SliceOfClean(s, 1, |s|);
      assert s[1..|s|] == s[1..];
      AfterUnderscore(s);
      NoDoubleStays(s[1..]);
    }
  }

  lemma SliceOfClean(s: string, i: nat, j: nat)
    requires i <= j <= |s|
    ensures AllSafe(s) ==> AllSafe(s[i..j])
    ensures NoDouble(s) ==> NoDouble(s[i..j])
  {
  }

  /** Before it is cut to length. */
  lemma TrimmedIsClean(name: string)
    ensures var t := Trimmed(name);
            AllSafe(t) && NoDouble(t) && (t != "" ==> t[0] != '_' && t[|t| - 1] != '_')
  {
    hide SubRuns, LStrip, RStrip, IsSafe;
    var safe := SubRuns(name, Unsafe);
    SubRunsSafe(name, Unsafe);
    var value := SubRuns(safe, Underscore);
    SubRunsKeepsSafe(safe, Underscore);
    UnderscoresCollapse(safe);
    var left := LStrip(value, Underscore);
    SliceOfClean(value, |value| - |left|, |value|);
    assert value[|value| - |left|..|value|] == left;
    var both := RStrip(left, Underscore);
    SliceOfClean(left, 0, |both|);
    assert left[0..|both|] == both;
  }

  /** Cutting costs at most one character more than it has to. */
  lemma CutIsClean(s: string)
    requires AllSafe(s) && NoDouble(s) && |s| > MAX_LENGTH && s[0] != '_'
    ensures var r := RStrip(s[..MAX_LENGTH], Underscore);
            AllSafe(r) && NoDouble(r) && |r| >= MAX_LENGTH - 1 && r[0] != '_' && r[|r| - 1] != '_'
  {
  }

  /** Whatever the name, its cleaned-up form is clean. */
  lemma SanitizedIsClean(name: string)
    ensures Clean(Sanitize(name)) && 1 <= |Sanitize(name)| <= 64
  {
    hide Trimmed, RStrip, IsSafe;
    ToolIsClean();
    TrimmedIsClean(name);
    if |OrTool(Trimmed(name))| > MAX_LENGTH {
      CutIsClean(OrTool(Trimmed(name)));
    }
  }

  lemma ToolIsClean()
    ensures Clean("tool")
  {
  }

  /** Cleaning up leaves a name alone exactly when it is clean already, so doing it twice is doing it once. */
  lemma SanitizeFixesCleanNames(s: string)
    ensures Sanitize(s) == s <==> Clean(s)
    ensures Sanitize(Sanitize(s)) == Sanitize(s)
  {
    SanitizedIsClean(s);
    if Clean(s) {
      CleanStays(s);
    }
    CleanStays(Sanitize(s));
  }

  /** The names left alone: up to 64 letters, digits, hyphens and single underscores between them. */
  lemma PlainNamesStay(s: string)
    ensures Sanitize(s) == s <==>
              && 1 <= |s| <= 64 && s[0] != '_' && s[|s| - 1] != '_'
              && (forall i :: 0 <= i < |s| - 1 && s[i] == '_' ==> s[i + 1] != '_')
              && forall i :: 0 <= i < |s| ==>
                   'a' <= s[i] <= 'z' || 'A' <= s[i] <= 'Z' || '0' <= s[i] <= '9' || s[i] == '_' || s[i] == '-'
  {
    SanitizeFixesCleanNames(s);
  }

  lemma CleanStays(s: string)
    requires Clean(s)
    ensures Sanitize(s) == s
  {
    hide SubRuns, IsSafe;
    SafeStays(s);
    NoDoubleStays(s);
  }

  /** The characters a name is made of, other than underscores and what underscores replace. */
  function Kept(s: string): string {
    if s == "" then "" else (if IsSafe(s[0]) && s[0] != '_' then [s[0]] else []) + Kept(s[1..])
  }

  lemma {:induction false} KeptConcat(a: string, b: string)
    ensures Kept(a + b) == Kept(a) + Kept(b)
  {
    if a == "" {
      assert a + b == b;
    } else {
      assert (a + b)[1..] == a[1..] + b;
      KeptConcat(a[1..], b);
    }
  }

  lemma {:induction false} NothingKept(s: string)
    requires forall i :: 0 <= i < |s| ==> !IsSafe(s[i]) || s[i] == '_'
    ensures Kept(s) == ""
  {
    if s != "" {
      NothingKept(s[1..]);
    }
  }

  predicate DropsNothing(p: char -> bool) {
    forall c :: p(c) ==> !IsSafe(c) || c == '_'
  }

  lemma {:induction false} LStripKeeps(s: string, p: char -> bool)
    requires DropsNothing(p)
    ensures Kept(LStrip(s, p)) == Kept(s)
  {
    if s != "" && p(s[0]) {
      LStripKeeps(s[1..], p);
    }
  }

  lemma RStripKeeps(s: string, p: char -> bool)
    requires DropsNothing(p)
    ensures Kept(RStrip(s, p)) == Kept(s)
  {
    var r := RStrip(s, p);
    assert s == r + s[|r|..];
    KeptConcat(r, s[|r|..]);
    NothingKept(s[|r|..]);
  }

  lemma {:induction false} SubRunsKeeps(s: string, p: char -> bool)
    requires DropsNothing(p)
    ensures Kept(SubRuns(s, p)) == Kept(s)
    decreases |s|
  {
    if s != "" {
      if p(s[0]) {
        LStripKeeps(s[1..], p);
        SubRunsKeeps(LStrip(s[1..], p), p);
        KeptConcat("_", SubRuns(LStrip(s[1..], p), p));
      } else {
        SubRunsKeeps(s[1..], p);
        KeptConcat([s[0]], SubRuns(s[1..], p));
      }
    }
  }

  lemma HeadIsKept(s: string)
    requires s != "" && IsSafe(s[0]) && s[0] != '_'
    ensures Kept(s) != ""
  {
  }

  /** Cleaning up neither invents, loses nor reorders characters: the alias spells the kept characters of
      the name, or a beginning of them if they are too many, and "tool" if there are none. */
  lemma SanitizeSpellsTheName(name: string)
    ensures if Kept(name) == "" then Sanitize(name) == "tool"
            else Kept(Sanitize(name)) <= Kept(name) && Sanitize(name) != "" &&
                 (|Sanitize(name)| < MAX_LENGTH - 1 ==> Kept(Sanitize(name)) == Kept(name))
  {
    hide Trimmed, RStrip, IsSafe, Kept;
    var t := Trimmed(name);
    TrimmedIsClean(name);
    TrimmedKeeps(name);
    if t != "" {
      HeadIsKept(t);
      if |t| > MAX_LENGTH {
        var cut := t[..MAX_LENGTH];
        CutIsClean(t);
        RStripKeeps(cut, Underscore);
        KeptConcat(cut, t[MAX_LENGTH..]);
        assert t == cut + t[MAX_LENGTH..];
      }
    } else {
      NothingKept("");
    }
  }

  lemma TrimmedKeeps(name: string)
    ensures Kept(Trimmed(name)) == Kept(name)
  {
    hide SubRuns, LStrip, RStrip, IsSafe, Kept;
    var value := SubRuns(SubRuns(name, Unsafe), Underscore);
    SubRunsKeeps(name, Unsafe);
    SubRunsKeeps(SubRuns(name, Unsafe), Underscore);
    LStripKeeps(value, Underscore);
    RStripKeeps(LStrip(value, Underscore), Underscore);
  }

  // Aliases

  /** What to do when the alias belongs to another name. */
  datatype Collision = HashSuffix | Reject

  /** Both dictionaries of a mapper. */
  datatype Names = Names(toReal: map<string, string>, toAlias: map<string, string>)

  const NoNames := Names(map[], map[])

  predicate IsSuffix(s: string) {
    |s| == SUFFIX_LENGTH && forall i :: 0 <= i < |s| ==> s[i] in "0123456789abcdef"
  }

  function Hashed(alias: string, suffix: string): string {
    RStrip(if |alias| <= MAX_LENGTH - SUFFIX_LENGTH - 1 then alias else alias[..MAX_LENGTH - SUFFIX_LENGTH - 1], Joint) + "_" + suffix
  }

  /** The alias chosen for a name that has none yet. */
  function Chosen(n: Names, name: string, hash: string -> string, collision: Collision): Option<string> {
    var alias := Sanitize(name);
    if alias !in n.toReal || n.toReal[alias] == name then Some(alias)
    else if collision.Reject? then None
    else Some(Hashed(alias, hash(name)))
  }

  function Encode(n: Names, name: string, hash: string -> string, collision: Collision): (Names, Option<string>) {
    if name in n.toAlias then (n, Some(n.toAlias[name]))
    else match Chosen(n, name, hash, collision)
      case None => (n, None)
      case Some(alias) => (Names(n.toReal[alias := name], n.toAlias[name := alias]), Some(alias))
  }

  function Decode(n: Names, alias: string): string {
    if alias in n.toReal then n.toReal[alias] else alias
  }

  lemma SafeConcat(a: string, b: string)
    requires AllSafe(a) && AllSafe(b)
    ensures AllSafe(a + b)
  {
    hide IsSafe;
  }

  lemma SuffixIsSafe(suffix: string)
    requires IsSuffix(suffix)
    ensures AllSafe(suffix)
  {
    forall i | 0 <= i < |suffix|
      ensures IsSafe(suffix[i])
    {
      assert suffix[i] in "0123456789abcdef";
    }
  }

  lemma HashedMatches(alias: string, suffix: string)
    requires AllSafe(alias) && IsSuffix(suffix)
    ensures Matches(Hashed(alias, suffix))
  {
    hide AllSafe, RStrip;
    var cut := if |alias| <= MAX_LENGTH - SUFFIX_LENGTH - 1 then alias else alias[..MAX_LENGTH - SUFFIX_LENGTH - 1];
    var trimmed := RStrip(cut, Joint);
    SliceOfClean(alias, 0, |trimmed|);
    assert trimmed == alias[0..|trimmed|];
    UnderscoreIsSafe();
    SafeConcat(trimmed, "_");
    SuffixIsSafe(suffix);
    SafeConcat(trimmed + "_", suffix);
  }

  lemma UnderscoreIsSafe()
    ensures AllSafe("_")
  {
  }

  /** Every alias the mapper can choose matches the pattern. */
  lemma AliasMatches(n: Names, name: string, hash: string -> string, collision: Collision)
    requires IsSuffix(hash(name))
    ensures match Chosen(n, name, hash, collision)
            case None => collision.Reject?
            case Some(alias) => 1 <= |alias| <= 64 && forall c :: c in alias ==>
              'a' <= c <= 'z' || 'A' <= c <= 'Z' || '0' <= c <= '9' || c == '_' || c == '-'
  {
    hide Sanitize, IsSuffix, RStrip;
    SanitizedIsClean(name);
    HashedMatches(Sanitize(name), hash(name));
  }

  /** Every alias in use leads to a name that uses it. */
  ghost predicate Linked(n: Names) {
    && (forall a :: a in n.toReal ==> n.toReal[a] in n.toAlias && n.toAlias[n.toReal[a]] == a)
    && (forall name :: name in n.toAlias ==> n.toAlias[name] in n.toReal)
  }

  /** The alias a new name gets: its cleaned-up form exactly when no other name has that already. Otherwise
      the name is refused, or gets the beginning of that form with the name's hash behind it. */
  lemma NewNamesGet(n: Names, name: string, hash: string -> string, collision: Collision)
    requires Linked(n) && name !in n.toAlias && IsSuffix(hash(name))
    ensures var alias, clean := Encode(n, name, hash, collision).1, Sanitize(name);
            if clean !in n.toReal then alias == Some(clean)
            else if collision.Reject? then alias == None
            else exists k :: && 0 <= k <= |clean| && k <= 57 && alias == Some(clean[..k] + "_" + hash(name))
                             && (k > 0 ==> clean[k - 1] != '_' && clean[k - 1] != '-')
                             && (forall i :: k <= i < |clean| && i < 57 ==> clean[i] == '_' || clean[i] == '-')
  {
    hide Sanitize;
    var clean := Sanitize(name);
    if clean in n.toReal && collision.HashSuffix? {
      var cut := if |clean| <= 57 then clean else clean[..57];
      var kept := RStrip(cut, Joint);
      assert clean[..|kept|] == kept;
      assert forall i :: 0 <= i < |cut| ==> cut[i] == clean[i];
    }
  }

  ghost predicate RoundTrips(n: Names) {
    forall name :: name in n.toAlias ==> Decode(n, n.toAlias[name]) == name
  }

  /** The alias chosen for this name belongs to another one. */
  predicate Clashes(n: Names, name: string, hash: string -> string, collision: Collision) {
    name !in n.toAlias && Chosen(n, name, hash, collision).Some? && Chosen(n, name, hash, collision).value in n.toReal
  }

  /** Names keep their aliases, and a mapping that decodes all its aliases goes on doing so exactly when the
      alias chosen is not already owned. */
  lemma EncodeStep(n: Names, name: string, hash: string -> string, collision: Collision)
    requires Linked(n)
    ensures var (after, alias) := Encode(n, name, hash, collision);
            && Linked(after)
            && (forall x :: x in n.toAlias ==> x in after.toAlias && after.toAlias[x] == n.toAlias[x])
            && (alias.Some? ==> name in after.toAlias && after.toAlias[name] == alias.value)
            && (alias.Some? && name !in n.toAlias ==> Decode(after, alias.value) == name)
            && (RoundTrips(after) <==> RoundTrips(n) && !Clashes(n, name, hash, collision))
  {
    hide Chosen;
    var (after, alias) := Encode(n, name, hash, collision);
    if name !in n.toAlias && alias.Some? {
      var a := alias.value;
      assert RoundTrips(n) && a !in n.toReal ==> RoundTrips(after);
      if a in n.toReal {
        var loser := n.toReal[a];
        assert loser != name && after.toAlias[loser] == a && Decode(after, a) == name;
      } else if RoundTrips(after) {
        forall x | x in n.toAlias
          ensures Decode(n, n.toAlias[x]) == x
        {
          assert after.toAlias[x] == n.toAlias[x] && n.toAlias[x] != a;
          assert Decode(after, after.toAlias[x]) == x;
        }
      }
    }
  }

  /** The mapping after registering names one after the other. */
  function Registered(names: seq<string>, hash: string -> string, collision: Collision): Names {
    if names == [] then NoNames
    else Encode(Registered(names[..|names| - 1], hash, collision), names[|names| - 1], hash, collision).0
  }

  ghost predicate NeverClashes(names: seq<string>, hash: string -> string, collision: Collision) {
    forall k :: 0 <= k < |names| ==> !Clashes(Registered(names[..k], hash, collision), names[k], hash, collision)
  }

  /** After any registrations, every alias handed out decodes to its name if and only if none of them took
      an alias that was already owned. A lost alias is never regained. */
  lemma {:induction false} RoundTripExactlyWithoutClash(names: seq<string>, hash: string -> string, collision: Collision)
    ensures Linked(Registered(names, hash, collision))
    ensures RoundTrips(Registered(names, hash, collision)) <==> NeverClashes(names, hash, collision)
  {
    hide Encode, Clashes;
    if names != [] {
      var init, name := names[..|names| - 1], names[|names| - 1];
      RoundTripExactlyWithoutClash(init, hash, collision);
      EncodeStep(Registered(init, hash, collision), name, hash, collision);
      OneMoreRegistration(names, hash, collision);
    }
  }

  lemma OneMoreRegistration(names: seq<string>, hash: string -> string, collision: Collision)
    requires names != []
    ensures var init, name := names[..|names| - 1], names[|names| - 1];
            NeverClashes(names, hash, collision) <==>
            NeverClashes(init, hash, collision) && !Clashes(Registered(init, hash, collision), name, hash, collision)
  {
    hide Registered, Clashes;
    var k := |names| - 1;
    var init := names[..k];
    assert forall i :: 0 <= i < k ==> names[..i] == init[..i] && names[i] == init[i];
    if NeverClashes(init, hash, collision) && !Clashes(Registered(init, hash, collision), names[k], hash, collision) {
      forall i | 0 <= i < |names|
        ensures !Clashes(Registered(names[..i], hash, collision), names[i], hash, collision)
      {
        assert i < k ==> !Clashes(Registered(init[..i], hash, collision), init[i], hash, collision);
      }
    }
    if NeverClashes(names, hash, collision) {
      forall i | 0 <= i < k
        ensures !Clashes(Registered(init[..i], hash, collision), init[i], hash, collision)
      {
        assert !Clashes(Registered(names[..i], hash, collision), names[i], hash, collision);
      }
      assert !Clashes(Registered(names[..k], hash, collision), names[k], hash, collision);
    }
  }

  /** Distinct names then have distinct aliases. */
  lemma AliasesAreDistinct(n: Names, x: string, y: string)
    requires RoundTrips(n) && x in n.toAlias && y in n.toAlias
    ensures n.toAlias[x] == n.toAlias[y] <==> x == y
  {
    assert Decode(n, n.toAlias[x]) == x && Decode(n, n.toAlias[y]) == y;
  }

  /** A name that looks like another name's hashed alias loses its own alias to it. */
  lemma HashedAliasCanClash(hash: string -> string)
    requires IsSuffix(hash("a/b"))
    ensures var squatter := "a_b_" + hash("a/b");
            var n := Registered([squatter, "a.b", "a/b"], hash, HashSuffix);
            && squatter in n.toAlias && n.toAlias[squatter] == squatter && "a/b" in n.toAlias && n.toAlias["a/b"] == squatter
            && Decode(n, squatter) == "a/b"
  {
    hide Sanitize, RStrip, Registered, Hashed, Clean, Decode;
    var h := hash("a/b");
    var squatter := "a_b_" + h;
    SquatterIsClean(h);
    SanitizeFixesCleanNames(squatter);
    ShortNames();
    SquatterIsHashed(h);
    assert "a/b"[1] != "a.b"[1];
    ThirdTakesFirst(squatter, "a.b", "a/b", "a_b", hash);
  }

  lemma SquatterIsHashed(h: string)
    requires IsSuffix(h)
    ensures var squatter := "a_b_" + h;
            Hashed("a_b", h) == squatter && squatter != "a_b" && squatter != "a.b" && squatter != "a/b"
  {
    hide Sanitize, RStrip;
    ShortNames();
  }

  lemma ThirdTakesFirst(x: string, y: string, z: string, alias: string, hash: string -> string)
    requires Sanitize(x) == x && Sanitize(y) == alias && Sanitize(z) == alias && Hashed(alias, hash(z)) == x
    requires x != y && y != z && x != z && x != alias
    ensures var n := Registered([x, y, z], hash, HashSuffix);
            && x in n.toAlias && n.toAlias[x] == x && z in n.toAlias && n.toAlias[z] == x && Decode(n, x) == z
  {
    hide Sanitize, Hashed, Registered;
    var one := RegisterNext([], x, hash);
    assert one == Names(map[x := x], map[x := x]);
    var two := RegisterNext([x], y, hash);
    assert two == Names(one.toReal[alias := y], one.toAlias[y := alias]);
    var three := RegisterNext([x, y], z, hash);
    assert three == Names(two.toReal[x := z], two.toAlias[z := x]);
  }

  lemma RegisterNext(names: seq<string>, name: string, hash: string -> string) returns (after: Names)
    ensures after == Registered(names + [name], hash, HashSuffix)
    ensures after == Encode(Registered(names, hash, HashSuffix), name, hash, HashSuffix).0
    ensures Registered([], hash, HashSuffix) == NoNames
    ensures names == [] ==> names + [name] == [name]
    ensures |names| == 1 ==> names + [name] == [names[0], name]
    ensures |names| == 2 ==> names + [name] == [names[0], names[1], name]
  {
    hide Encode;
    after := Registered(names + [name], hash, HashSuffix);
    assert (names + [name])[..|names|] == names;
  }

  lemma SquatterIsClean(h: string)
    requires IsSuffix(h)
    ensures Clean("a_b_" + h)
  {
  }

  lemma ShortNames()
    ensures Sanitize("a.b") == "a_b" && Sanitize("a/b") == "a_b"
    ensures RStrip("a_b", Joint) == "a_b"
  {
    ShortName('.');
    ShortName('/');
    assert ['a', '.', 'b'] == "a.b" && ['a', '/', 'b'] == "a/b";
  }

  lemma ShortName(c: char)
    requires !IsSafe(c)
    ensures Sanitize(['a', c, 'b']) == "a_b"
  {
    hide SubRuns, LStrip, RStrip;
    var s := ['a', c, 'b'];
    SubRunsStep(s, Unsafe);
    assert s[1..] == [c, 'b'] && [c, 'b'][1..] == "b" && "b"[1..] == "";
    SubRunsStep([c, 'b'], Unsafe);
    SubRunsStep("b", Unsafe);
    assert SubRuns("b", Unsafe) == "b";
    assert SubRuns([c, 'b'], Unsafe) == "_b";
    assert SubRuns(s, Unsafe) == "a_b";
    SafeAb();
    CleanStays("a_b");
    SafeStays("a_b");
  }

  lemma SubRunsStep(s: string, p: char -> bool)
    requires s != ""
    ensures SubRuns("", p) == ""
    ensures !p(s[0]) ==> SubRuns(s, p) == [s[0]] + SubRuns(s[1..], p)
    ensures p(s[0]) && |s| > 1 && !p(s[1]) ==> SubRuns(s, p) == "_" + SubRuns(s[1..], p)
  {
  }

  lemma SafeAb()
    ensures Clean("a_b")
  {
  }

  lemma MatchesIsSafe(alias: string)
    requires Matches(alias)
    ensures AllSafe(alias)
  {
  }

  class ToolNameMapper {
    const hash: string -> string
    const collision: Collision
    var encodedToReal: map<string, string>
    var realToEncoded: map<string, string>

    ghost function Value(): Names
      reads this
    {
      Names(encodedToReal, realToEncoded)
    }

    constructor (hash: string -> string, collision: Collision)
      ensures this.hash == hash && this.collision == collision && Value() == NoNames
    {
      this.hash, this.collision := hash, collision;
      encodedToReal, realToEncoded := map[], map[];
    }

    /** A clean alias that no other name owns is taken as it is; an owned one is refused or hashed. What is
        taken matches the pattern. */
    method Dedupe(realName: string, alias: string) returns (unique: Option<string>)
      ensures Matches(alias) && IsSuffix(hash(realName)) && unique.Some? ==> Matches(unique.value)
      ensures unique ==
                if alias !in encodedToReal || encodedToReal[alias] == realName then Some(alias)
                else if collision.Reject? then None
                else Some(Hashed(alias, hash(realName)))
    {
      hide Hashed, Matches, IsSuffix;
      if Matches(alias) && IsSuffix(hash(realName)) {
        MatchesIsSafe(alias);
        HashedMatches(alias, hash(realName));
      }
      if alias !in encodedToReal || encodedToReal[alias] == realName {
        return Some(alias);
      }
      if collision.Reject? {
        return None;
      }
      return Some(Hashed(alias, hash(realName)));
    }

    /** A name keeps the alias it has. A new alias matches the pattern, so the pattern error cannot occur, and
        decodes to its name. */
    method EncodeName(realName: string) returns (alias: Option<string>)
      requires IsSuffix(hash(realName))
      modifies this
      ensures Value() == Encode(old(Value()), realName, hash, collision).0
      ensures alias == Encode(old(Value()), realName, hash, collision).1
      ensures realName in old(realToEncoded) ==> alias == Some(old(realToEncoded)[realName]) && Value() == old(Value())
      ensures realName !in old(realToEncoded) && alias.Some? ==> Matches(alias.value) && Decode(Value(), alias.value) == realName
      ensures alias.None? ==> collision.Reject? && Value() == old(Value())
    {
      hide Sanitize, Hashed, IsSuffix, Matches;
      if realName in realToEncoded {
        return Some(realToEncoded[realName]);
      }
      SanitizedIsClean(realName);
      alias := Dedupe(realName, Sanitize(realName));
      if alias.None? {
        return;
      }
      if !Matches(alias.value) {
        assert false;
      }
      realToEncoded := realToEncoded[realName := alias.value];
      encodedToReal := encodedToReal[alias.value := realName];
    }

    /** A text that is no alias comes back as it is, an alias as a registered name that uses it; where all
        aliases decode, no other name uses it. */
    method DecodeName(modelName: string) returns (realName: string)
      ensures realName == Decode(Value(), modelName)
      ensures modelName !in encodedToReal ==> realName == modelName
      ensures Linked(Value()) && modelName in encodedToReal ==> realName in realToEncoded && realToEncoded[realName] == modelName
      ensures RoundTrips(Value()) ==> forall name :: name in realToEncoded && realToEncoded[name] == modelName ==> name == realName
    {
      realName := if modelName in encodedToReal then encodedToReal[modelName] else modelName;
    }

    method Clear()
      modifies this
      ensures Value() == NoNames
    {
      encodedToReal, realToEncoded := map[], map[];
    }
  }
}
