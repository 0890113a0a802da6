/** The strip and injection of X-Forge-* headers in internal/proxy/headers.go. The model follows the
    code; the three strips that the repository's README describes are different ones. */
module Headers {
  import opened Basics
  import opened Text
  import opened DisplayName

  type HeaderMap = map<string, seq<string>>

  const FORGE_PREFIX := "X-Forge-"
  const SESSION_COOKIE := "forge_session"

  // Canonical keys

  predicate IsTokenChar(c: char) {
    'A' <= c <= 'Z' || 'a' <= c <= 'z' || '0' <= c <= '9' || c in "!#$%&'*+-.^_`|~"
  }

  predicate IsToken(s: string) { forall i :: 0 <= i < |s| ==> IsTokenChar(s[i]) }

  function TitleCase(s: string, start: bool): string {
    if s == "" then "" else [if start then Upper(s[0]) else Lower(s[0])] + TitleCase(s[1..], s[0] == '-')
  }

  /** http.CanonicalHeaderKey: anything that is not a token is left as it is. */
  function CanonicalKey(s: string): string { if IsToken(s) then TitleCase(s, true) else s }

  predicate IsForge(k: string) { FORGE_PREFIX <= CanonicalKey(k) }

  predicate AllCanonical(h: HeaderMap) { forall k :: k in h ==> CanonicalKey(k) == k }

  lemma CaseFacts(c: char)
    ensures Upper(Upper(c)) == Upper(c) && Lower(Lower(c)) == Lower(c)
    ensures (Upper(c) == '-' <==> c == '-') && (Lower(c) == '-' <==> c == '-')
    ensures IsTokenChar(c) ==> IsTokenChar(Upper(c)) && IsTokenChar(Lower(c))
  {
  }

  lemma {:induction false} TitleCaseFacts(s: string, start: bool)
    ensures TitleCase(TitleCase(s, start), start) == TitleCase(s, start)
    ensures IsToken(s) ==> IsToken(TitleCase(s, start))
  {
    if s != "" {
      CaseFacts(s[0]);
      TitleCaseFacts(s[1..], s[0] == '-');
      assert TitleCase(s, start)[1..] == TitleCase(s[1..], s[0] == '-');
    }
  }

  lemma CanonicalIsStable(s: string)
    ensures CanonicalKey(CanonicalKey(s)) == CanonicalKey(s)
  {
    TitleCaseFacts(s, true);
  }

  // Layers 1 and 2b: whole entries

  /** What the Del calls for these keys take out. */
  function Deleted(keys: set<string>): set<string> { set k | k in keys && IsForge(k) :: CanonicalKey(k) }

  function StripKeys(h: HeaderMap): HeaderMap { h - Deleted(h.Keys) }

  /** Del removes the canonical key, so what survives the prefix strip is exactly what was stored under
      a key that is not canonical. */
  lemma ForgeSurvivesIff(h: HeaderMap, k: string)
    ensures k in StripKeys(h) && IsForge(k) <==> k in h && IsForge(k) && CanonicalKey(k) != k
    ensures k in h && !IsForge(k) ==> k in StripKeys(h)
    ensures k in StripKeys(h) ==> k in h && StripKeys(h)[k] == h[k]
  {
    if k in h && k in Deleted(h.Keys) {
      var j :| j in h && IsForge(j) && CanonicalKey(j) == k;
      CanonicalIsStable(j);
    }
  }

  // Layers 2a and 4: entries of a list

  /** The two headers that are filtered entry by entry. */
  datatype List = TrailerNames | CookiePairs

  function HeaderName(l: List): string { if l.TrailerNames? then "Trailer" else "Cookie" }

  function Separator(l: List): char { if l.TrailerNames? then ',' else ';' }

  /** The name part of a cookie pair. */
  function CookieName(pair: string): string {
    match Cut(pair, '=')
    case None => pair
    case Some((name, _)) => name
  }

  predicate Keeps(l: List, item: string) {
    if l.TrailerNames? then !IsForge(item) else CookieName(item) != SESSION_COOKIE
  }

  function Listed(l: List, parts: seq<string>): seq<string> {
    if l.TrailerNames? then NonEmpty(TrimAll(parts)) else TrimAll(parts)
  }

  /** One header value as a list; empty trailer names are dropped, empty cookie pairs are not. */
  function Items(l: List, value: string): seq<string> { Listed(l, Split(value, Separator(l))) }

  function Kept(l: List, items: seq<string>): seq<string> {
    if items == [] then [] else (if Keeps(l, items[0]) then [items[0]] else []) + Kept(l, items[1..])
  }

  function CleanValue(l: List, value: string): seq<string> {
    var kept := Kept(l, Items(l, value));
    if kept == [] then [] else [Join(kept, [Separator(l), ' '])]
  }

  function CleanValues(l: List, values: seq<string>): seq<string> {
    if values == [] then [] else CleanValue(l, values[0]) + CleanValues(l, values[1..])
  }

  function CleanHeader(l: List, h: HeaderMap): HeaderMap {
    if HeaderName(l) !in h then h
    else if CleanValues(l, h[HeaderName(l)]) == [] then h - {HeaderName(l)}
    else h[HeaderName(l) := CleanValues(l, h[HeaderName(l)])]
  }

  function Stripped(h: HeaderMap): HeaderMap { CleanHeader(CookiePairs, CleanHeader(TrailerNames, StripKeys(h))) }

  /** All entries of a header that may be sent several times. */
  function AllItems(l: List, values: seq<string>): seq<string> {
    if values == [] then [] else Items(l, values[0]) + AllItems(l, values[1..])
  }

  /** The same for a whole header map. */
  function ItemsOf(l: List, h: HeaderMap): seq<string> {
    if HeaderName(l) in h then AllItems(l, h[HeaderName(l)]) else []
  }

  predicate CleanItem(l: List, item: string) {
    Separator(l) !in item && Trimmed(item) && (l.TrailerNames? ==> item != "")
  }

  lemma ItemsFacts(l: List, value: string)
    ensures forall k :: 0 <= k < |Items(l, value)| ==> CleanItem(l, Items(l, value)[k])
  {
    var sep := Separator(l);
    var parts := Split(value, sep);
    SplitParts(value, sep);
    TrimAllFacts(parts);
    NonEmptyFacts(TrimAll(parts));
    forall k | 0 <= k < |parts|
      ensures sep !in TrimAll(parts)[k] && Trimmed(TrimAll(parts)[k])
    {
      TrimFacts(parts[k]);
    }
    forall k | 0 <= k < |Items(l, value)|
      ensures CleanItem(l, Items(l, value)[k])
    {
      assert Items(l, value)[k] in TrimAll(parts);
    }
  }

  lemma {:induction false} KeptMembers(l: List, items: seq<string>)
    ensures forall x :: x in Kept(l, items) <==> x in items && Keeps(l, x)
  {
    hide Keeps;
    if items != [] {
      KeptMembers(l, items[1..]);
      assert items == [items[0]] + items[1..];
    }
  }

  lemma {:induction false} KeptAll(l: List, items: seq<string>)
    requires forall k :: 0 <= k < |items| ==> Keeps(l, items[k])
    ensures Kept(l, items) == items
  {
    hide Keeps;
    if items != [] {
      KeptAll(l, items[1..]);
      assert items == [items[0]] + items[1..];
    }
  }

  lemma KeptFacts(l: List, items: seq<string>)
    ensures forall x :: x in Kept(l, items) <==> x in items && Keeps(l, x)
    ensures Kept(l, Kept(l, items)) == Kept(l, items)
  {
    hide Keeps;
    KeptMembers(l, items);
    hide Kept;
    KeptAll(l, Kept(l, items));
  }

  lemma {:induction false} KeptAppend(l: List, a: seq<string>, b: seq<string>)
    ensures Kept(l, a + b) == Kept(l, a) + Kept(l, b)
  {
    hide Keeps;
    if a == [] {
      assert a + b == b;
    } else {
      var first := if Keeps(l, a[0]) then [a[0]] else [];
      assert (a + b)[1..] == a[1..] + b;
      assert (a + b)[0] == a[0];
      KeptAppend(l, a[1..], b);
      assert Kept(l, a + b) == first + Kept(l, a[1..] + b);
      assert first + (Kept(l, a[1..]) + Kept(l, b)) == first + Kept(l, a[1..]) + Kept(l, b);
    }
  }

  /** What is written back reads as the kept entries. */
  lemma WrittenReadsBack(l: List, items: seq<string>)
    requires items != [] && forall k :: 0 <= k < |items| ==> CleanItem(l, items[k])
    ensures Items(l, Join(items, [Separator(l), ' '])) == items
  {
    hide Split, TrimAll, Join, NonEmpty, Trimmed;
    SplitJoinSpaced(items, Separator(l));
    if l.TrailerNames? { NonEmptyAll(items); }
  }

  lemma CleanValueFacts(l: List, value: string)
    ensures AllItems(l, CleanValue(l, value)) == Kept(l, Items(l, value))
    ensures CleanValues(l, CleanValue(l, value)) == CleanValue(l, value)
  {
    var kept := Kept(l, Items(l, value));
    KeptFacts(l, Items(l, value));
    if kept != [] {
      KeptClean(l, value);
      WrittenReadsBack(l, kept);
      hide Items, Kept, Join, Separator;
      WrittenStays(l, kept);
    }
  }

  lemma KeptClean(l: List, value: string)
    ensures forall k :: 0 <= k < |Kept(l, Items(l, value))| ==> CleanItem(l, Kept(l, Items(l, value))[k])
  {
    var items := Items(l, value);
    ItemsFacts(l, value);
    KeptMembers(l, items);
    hide Items, Kept, CleanItem;
    forall k | 0 <= k < |Kept(l, items)|
      ensures CleanItem(l, Kept(l, items)[k])
    {
      assert Kept(l, items)[k] in items;
    }
  }

  lemma WrittenStays(l: List, kept: seq<string>)
    requires kept != [] && Kept(l, kept) == kept && Items(l, Join(kept, [Separator(l), ' '])) == kept
    ensures var written := Join(kept, [Separator(l), ' ']);
      AllItems(l, [written]) == kept && CleanValues(l, [written]) == [written]
  {
    var written := Join(kept, [Separator(l), ' ']);
    hide Items, Kept, Join, Separator;
    assert [written][1..] == [];
    assert AllItems(l, [written]) == Items(l, written) + [];
  }

  lemma {:induction false} CleanAppend(l: List, a: seq<string>, b: seq<string>)
    ensures CleanValues(l, a + b) == CleanValues(l, a) + CleanValues(l, b)
    ensures AllItems(l, a + b) == AllItems(l, a) + AllItems(l, b)
  {
    hide CleanValue, Items;
    if a == [] {
      assert a + b == b;
    } else {
      assert (a + b)[1..] == a[1..] + b;
      CleanAppend(l, a[1..], b);
    }
  }

  /** Both filters keep the order of what they keep, drop all of what they are for, and do nothing the
      second time. */
  lemma {:induction false} CleaningFilters(l: List, values: seq<string>)
    ensures AllItems(l, CleanValues(l, values)) == Kept(l, AllItems(l, values))
    ensures CleanValues(l, CleanValues(l, values)) == CleanValues(l, values)
  {
    if values != [] {
      CleanValueFacts(l, values[0]);
      CleaningFilters(l, values[1..]);
      hide CleanValue, Items, Kept;
      CleanAppend(l, CleanValue(l, values[0]), CleanValues(l, values[1..]));
      KeptAppend(l, Items(l, values[0]), AllItems(l, values[1..]));
    }
  }

  lemma CookieNameIs(x: string)
    ensures CookieName(x) == SESSION_COOKIE <==> x == SESSION_COOKIE || SESSION_COOKIE + "=" <= x
  {
    SessionCookiePlain();
    CutFacts(x, '=');
    if SESSION_COOKIE + "=" <= x {
      var rest := x[|SESSION_COOKIE| + 1..];
      assert x == SESSION_COOKIE + ['='] + rest;
      CutFirst(SESSION_COOKIE, '=', rest);
    }
    hide Cut;
  }

  /** After the strip no X-Forge trailer is announced, and no cookie is sent whose name, as it is written up
      to the '=', is the session's. */
  lemma NothingForbiddenLeft(l: List, values: seq<string>)
    ensures forall x :: x in AllItems(l, CleanValues(l, values)) <==>
      && x in AllItems(l, values)
      && if l.TrailerNames? then !("X-Forge-" <= CanonicalKey(x))
         else x != "forge_session" && !("forge_session=" <= x)
  {
    CleaningFilters(l, values);
    KeptFacts(l, AllItems(l, values));
    hide Keeps, AllItems, CleanValues, Kept, CanonicalKey;
    forall x
      ensures Keeps(l, x) <==>
        if l.TrailerNames? then !("X-Forge-" <= CanonicalKey(x))
        else x != "forge_session" && !("forge_session=" <= x)
    {
      KeepsIs(l, x);
    }
  }

  lemma KeepsIs(l: List, x: string)
    ensures Keeps(l, x) <==>
      if l.TrailerNames? then !("X-Forge-" <= CanonicalKey(x)) else x != "forge_session" && !("forge_session=" <= x)
  {
    hide CanonicalKey;
    CookieNameIs(x);
    hide CookieName;
  }

  /** Which entries a header value has. */
  lemma ItemsAre(l: List, value: string, x: string)
    ensures x in Items(l, value) <==>
      && (l.TrailerNames? ==> x != "")
      && exists k :: 0 <= k < |Split(value, Separator(l))| && x == Trim(Split(value, Separator(l))[k])
  {
    NonEmptyFacts(TrimAll(Split(value, Separator(l))));
    TrimAllMembers(Split(value, Separator(l)), x);
    assert x in Items(l, value) <==> x in TrimAll(Split(value, Separator(l))) && (l.TrailerNames? ==> x != "");
  }

  /** Which keys are meant: the comparison does not depend on the case of a token. */
  lemma ForgeIff(k: string)
    ensures IsForge(k) <==> if IsToken(k) then "x-forge-" <= ToLower(k) else "X-Forge-" <= k
  {
    if IsToken(k) {
      TitleCaseAt(k, true);
      LowerAt(k);
      LowerAt(TitleCase(k, true));
      hide TitleCase, ToLower;
      ForgeLetters(k, TitleCase(k, true));
    }
  }

  /** Where a word starts: at the beginning and after each '-'. */
  predicate StartsWord(s: string, i: nat, start: bool)
    requires i < |s|
  {
    if i == 0 then start else s[i - 1] == '-'
  }

  lemma {:induction false} TitleCaseAt(s: string, start: bool)
    ensures |TitleCase(s, start)| == |s|
    ensures forall i :: 0 <= i < |s| ==>
      TitleCase(s, start)[i] == if StartsWord(s, i, start) then Upper(s[i]) else Lower(s[i])
  {
    if s != "" {
      TitleCaseAt(s[1..], s[0] == '-');
      hide Upper, Lower;
      forall i | 0 < i < |s|
        ensures TitleCase(s, start)[i] == if StartsWord(s, i, start) then Upper(s[i]) else Lower(s[i])
      {
        assert TitleCase(s, start)[i] == TitleCase(s[1..], s[0] == '-')[i - 1];
        assert s[1..][i - 1] == s[i];
      }
    }
  }

  lemma ForgeLetters(k: string, titled: string)
    requires |titled| == |k| == |ToLower(k)| && IsToken(k)
    requires forall i :: 0 <= i < |k| ==> ToLower(k)[i] == Lower(k[i])
    requires forall i :: 0 <= i < |k| ==> titled[i] == if StartsWord(k, i, true) then Upper(k[i]) else Lower(k[i])
    ensures "X-Forge-" <= titled <==> "x-forge-" <= ToLower(k)
  {
    hide ToLower, IsToken;
    if |k| >= 8 {
      assert "X-Forge-" <= titled <==> forall i :: 0 <= i < 8 ==> titled[i] == "X-Forge-"[i];
      assert "x-forge-" <= ToLower(k) <==> forall i :: 0 <= i < 8 ==> Lower(k[i]) == "x-forge-"[i];
      if forall i :: 0 <= i < 8 ==> titled[i] == "X-Forge-"[i] { TitledIsLowered(k, titled); }
      if forall i :: 0 <= i < 8 ==> Lower(k[i]) == "x-forge-"[i] { LoweredIsTitled(k, titled); }
    }
  }

  lemma TitledIsLowered(k: string, titled: string)
    requires |titled| == |k| >= 8
    requires forall i :: 0 <= i < |k| ==> titled[i] == if StartsWord(k, i, true) then Upper(k[i]) else Lower(k[i])
    requires forall i :: 0 <= i < 8 ==> titled[i] == "X-Forge-"[i]
    ensures forall i :: 0 <= i < 8 ==> Lower(k[i]) == "x-forge-"[i]
  {
    hide StartsWord;
    forall i | 0 <= i < 8
      ensures Lower(k[i]) == "x-forge-"[i]
    {
      assert titled[i] == Upper(k[i]) || titled[i] == Lower(k[i]);
      LetterCase(k[i]);
      assert Lower("X-Forge-"[i]) == "x-forge-"[i];
    }
  }

  lemma LetterCase(c: char)
    ensures Lower(Upper(c)) == Lower(c) && Lower(Lower(c)) == Lower(c)
  {
  }

  lemma LoweredIsTitled(k: string, titled: string)
    requires |titled| == |k| >= 8
    requires forall i :: 0 <= i < |k| ==> titled[i] == if StartsWord(k, i, true) then Upper(k[i]) else Lower(k[i])
    requires forall i :: 0 <= i < 8 ==> Lower(k[i]) == "x-forge-"[i]
    ensures forall i :: 0 <= i < 8 ==> titled[i] == "X-Forge-"[i]
  {
    forall i | 0 <= i < 8
      ensures titled[i] == "X-Forge-"[i]
    {
      assert i > 0 ==> (k[i - 1] == '-' <==> "x-forge-"[i - 1] == '-') by {
        if i > 0 { assert Lower(k[i - 1]) == "x-forge-"[i - 1]; }
      }
      assert StartsWord(k, i, true) <==> i == 0 || i == 2;
      assert Lower(k[i]) == "x-forge-"[i];
    }
  }

  /** What is left of the trailer announcement: exactly the names that are not X-Forge ones. */
  lemma TrailersLeft(h: HeaderMap, x: string)
    ensures x in ItemsOf(TrailerNames, Stripped(h)) <==>
      x in ItemsOf(TrailerNames, StripKeys(h)) && !("X-Forge-" <= CanonicalKey(x))
  {
    KeptFacts(TrailerNames, ItemsOf(TrailerNames, StripKeys(h)));
    hide CanonicalKey, Kept, ItemsOf, StripKeys, CleanHeader;
    ListCleaned(TrailerNames, StripKeys(h));
    CookieElsewhere(CleanHeader(TrailerNames, StripKeys(h)));
  }

  /** What is left of the cookies: exactly the pairs that are not "forge_session", with or without a value. */
  lemma CookiesLeft(h: HeaderMap, x: string)
    ensures x in ItemsOf(CookiePairs, Stripped(h)) <==>
      x in ItemsOf(CookiePairs, StripKeys(h)) && x != "forge_session" && !("forge_session=" <= x)
  {
    var names := CleanHeader(TrailerNames, StripKeys(h));
    hide ItemsOf, StripKeys, CleanHeader, Kept;
    KeptFacts(CookiePairs, ItemsOf(CookiePairs, names));
    CookieNameIs(x);
    hide CookieName;
    TrailerElsewhere(StripKeys(h));
    ListCleaned(CookiePairs, names);
    assert Stripped(h) == CleanHeader(CookiePairs, names);
  }

  lemma CookieElsewhere(h: HeaderMap)
    ensures ItemsOf(TrailerNames, CleanHeader(CookiePairs, h)) == ItemsOf(TrailerNames, h)
  {
    assert "Trailer"[0] != "Cookie"[0];
    hide AllItems, CleanValues;
  }

  lemma TrailerElsewhere(h: HeaderMap)
    ensures ItemsOf(CookiePairs, CleanHeader(TrailerNames, h)) == ItemsOf(CookiePairs, h)
  {
    assert "Trailer"[0] != "Cookie"[0];
    hide AllItems, CleanValues;
  }

  /** A reader of cookies that drops the spaces around a name takes the pair for the session cookie. */
  predicate ReadsAsSession(pair: string) { Trim(CookieName(pair)) == SESSION_COOKIE }

  /** A space stands before the '='. */
  predicate SpacedName(pair: string) {
    var name := CookieName(pair);
    name != "" && IsSpace(name[|name| - 1])
  }

  /** What such a reader still finds of the session cookie after the strip: exactly the pairs that were sent
      with a space between the name and the '='. */
  lemma SessionCookieSurvivesIff(values: seq<string>, pair: string)
    ensures pair in AllItems(CookiePairs, CleanValues(CookiePairs, values)) && ReadsAsSession(pair)
       <==> pair in AllItems(CookiePairs, values) && ReadsAsSession(pair) && SpacedName(pair)
  {
    NothingForbiddenLeft(CookiePairs, values);
    CookieNameIs(pair);
    AllItemsClean(CookiePairs, values);
    hide AllItems, CleanValues, Trim, Trimmed;
    if ReadsAsSession(pair) && Trimmed(pair) { SpacedIffKept(pair); }
  }

  lemma SpacedIffKept(pair: string)
    requires ReadsAsSession(pair) && Trimmed(pair)
    ensures SpacedName(pair) <==> CookieName(pair) != SESSION_COOKIE
  {
    var name := CookieName(pair);
    CutFacts(pair, '=');
    assert name == "" ==> Trim(name) == "";
    assert name[0] == pair[0];
    if !SpacedName(pair) { TrimOfTrimmed(name); }
  }

  lemma {:induction false} AllItemsClean(l: List, values: seq<string>)
    ensures forall x :: x in AllItems(l, values) ==> Trimmed(x)
  {
    if values != [] {
      ItemsFacts(l, values[0]);
      AllItemsClean(l, values[1..]);
      hide Items, Trimmed;
      forall x | x in Items(l, values[0])
        ensures Trimmed(x)
      {
        var k :| 0 <= k < |Items(l, values[0])| && Items(l, values[0])[k] == x;
        assert CleanItem(l, Items(l, values[0])[k]);
      }
    }
  }

  /** Such a pair, with any value, and its way through the strip. */
  lemma SpacedCookieSurvives(value: string)
    requires ';' !in value && Trimmed(value)
    ensures var pair := SESSION_COOKIE + " =" + value;
      ReadsAsSession(pair) && CleanValues(CookiePairs, [pair]) == [pair]
  {
    var name, pair := SESSION_COOKIE + [' '], SESSION_COOKIE + " =" + value;
    SessionCookiePlain();
    assert pair == name + ['='] + value;
    CutFirst(name, '=', value);
    TrimTrailing(SESSION_COOKIE, ' ');
    TrimOfTrimmed(SESSION_COOKIE);
    assert |CookieName(pair)| != |SESSION_COOKIE|;
    hide Trim, Cut, CookieName;
    SinglePair(pair);
  }

  lemma SessionCookiePlain()
    ensures Trimmed(SESSION_COOKIE) && SESSION_COOKIE != "" && '=' !in SESSION_COOKIE && ';' !in SESSION_COOKIE
  {
  }

  /** A header value that is one pair is kept or dropped as a whole. */
  lemma SinglePair(pair: string)
    requires Trimmed(pair) && ';' !in pair && CookieName(pair) != SESSION_COOKIE
    ensures CleanValues(CookiePairs, [pair]) == [pair]
  {
    SplitPlain(pair, ';');
    TrimOfTrimmed(pair);
    hide Trim, Split, CookieName;
    assert [pair][1..] == [];
    assert TrimAll([pair]) == [pair];
    assert Kept(CookiePairs, [pair]) == [pair];
  }

  // The whole request

  datatype User = User(
    id: int, email: string, name: Bytes, avatarUrl: string, roles: seq<string>,
    slackUserId: string, slackTeamId: string)

  const CONTRACT_VERSION := "1"

  /** The nine headers in the order in which they are set. */
  function ForgePairs(secret: string, u: User): seq<(string, string)> {
    [ ("X-Forge-Proxy-Secret", secret),
      ("X-Forge-Contract-Version", CONTRACT_VERSION),
      ("X-Forge-User-Id", FormatInt(u.id)),
      ("X-Forge-Email", u.email),
      ("X-Forge-Name", Encode(u.name)),
      ("X-Forge-Avatar", u.avatarUrl),
      ("X-Forge-Roles", Join(u.roles, ",")),
      ("X-Forge-Slack-User-Id", u.slackUserId),
      ("X-Forge-Slack-Team-Id", u.slackTeamId) ]
  }

  const FORGE_NAMES := [
    "X-Forge-Proxy-Secret", "X-Forge-Contract-Version", "X-Forge-User-Id", "X-Forge-Email", "X-Forge-Name",
    "X-Forge-Avatar", "X-Forge-Roles", "X-Forge-Slack-User-Id", "X-Forge-Slack-Team-Id" ]

  function SetAll(h: HeaderMap, pairs: seq<(string, string)>): HeaderMap {
    if pairs == [] then h
    else
      var last := pairs[|pairs| - 1];
      SetAll(h, pairs[..|pairs| - 1])[last.0 := [last.1]]
  }

  class Request {
    var header: HeaderMap
    var trailer: HeaderMap

    constructor (header: HeaderMap, trailer: HeaderMap)
      ensures this.header == header && this.trailer == trailer
    {
      this.header := header;
      this.trailer := trailer;
    }

    method StripForgeHeaders()
      modifies this
      ensures header == Stripped(old(header)) && trailer == StripKeys(old(trailer))
    {
      header := DeleteForgeKeys(header);
      var afterKeys := header;
      if "Trailer" in header {
        var cleaned := Clean(TrailerNames, header["Trailer"]);
        header := if |cleaned| == 0 then header - {"Trailer"} else header["Trailer" := cleaned];
      }
      assert header == CleanHeader(TrailerNames, afterKeys);
      var afterTrailer := header;
      trailer := DeleteForgeKeys(trailer);
      if "Cookie" in header {
        var cleaned := Clean(CookiePairs, header["Cookie"]);
        header := if |cleaned| == 0 then header - {"Cookie"} else header["Cookie" := cleaned];
      }
      assert header == CleanHeader(CookiePairs, afterTrailer);
    }

    method InjectForgeHeaders(secret: string, u: User)
      modifies this`header
      ensures header == SetAll(old(header), ForgePairs(secret, u))
    {
      var pairs := ForgePairs(secret, u);
      for i := 0 to |pairs|
        invariant header == SetAll(old(header), pairs[..i])
      {
        assert pairs[..i + 1][..i] == pairs[..i];
        header := header - {pairs[i].0};
        header := header[pairs[i].0 := [pairs[i].1]];
      }
      assert pairs[..|pairs|] == pairs;
    }
  }

  /** The prefix loop: every key is looked at in some order, and Del takes its canonical form out. */
  method DeleteForgeKeys(h: HeaderMap) returns (r: HeaderMap)
    ensures r == StripKeys(h)
  {
    r := h;
    var todo := h.Keys;
    assert Deleted({}) == {};
    hide IsForge, CanonicalKey, Deleted;
    while todo != {}
      invariant todo <= h.Keys
      invariant r == h - Deleted(h.Keys - todo)
      decreases todo
    {
      var k :| k in todo;
      DeletedOneMore(h.Keys - todo, k);
      todo := todo - {k};
      assert h.Keys - todo == h.Keys - (todo + {k}) + {k};
      if IsForge(k) {
        r := r - {CanonicalKey(k)};
      }
    }
  }

  lemma DeletedOneMore(seen: set<string>, k: string)
    ensures Deleted(seen + {k}) == Deleted(seen) + (if IsForge(k) then {CanonicalKey(k)} else {})
  {
    hide IsForge, CanonicalKey;
    forall x | x in Deleted(seen) + (if IsForge(k) then {CanonicalKey(k)} else {})
      ensures x in Deleted(seen + {k})
    {
      if x in Deleted(seen) {
        var j :| j in seen && IsForge(j) && CanonicalKey(j) == x;
        assert j in seen + {k};
      } else {
        assert k in seen + {k};
      }
    }
  }

  lemma FilterStep(l: List, parts: seq<string>, i: nat, kept: seq<string>)
    requires i < |parts|
    ensures var item := Trim(parts[i]);
      kept + Kept(l, Listed(l, parts[i..]))
      == (if (l.TrailerNames? && item == "") || !Keeps(l, item) then kept else kept + [item])
         + Kept(l, Listed(l, parts[i + 1..]))
  {
    hide Keeps;
    assert parts[i..][1..] == parts[i + 1..];
    var item, rest := Trim(parts[i]), Listed(l, parts[i + 1..]);
    if l.TrailerNames? && item == "" {
      assert Listed(l, parts[i..]) == rest;
    } else {
      assert Listed(l, parts[i..]) == [item] + rest;
      KeptAppend(l, [item], rest);
      assert Kept(l, [item]) == if Keeps(l, item) then [item] else [];
    }
  }

  /** The filter loop over the entries of one header value. */
  method Filter(l: List, value: string) returns (kept: seq<string>)
    ensures kept == Kept(l, Items(l, value))
  {
    kept := [];
    var parts := Split(value, Separator(l));
    assert parts[0..] == parts;
    assert Kept(l, Listed(l, [])) == [];
    hide Kept, Listed, Trim, IsForge;
    for i := 0 to |parts|
      invariant Kept(l, Listed(l, parts)) == kept + Kept(l, Listed(l, parts[i..]))
    {
      FilterStep(l, parts, i, kept);
      var item := Trim(parts[i]);
      if l.TrailerNames? {
        if item == "" {
          continue;
        }
        if IsForge(item) {
          continue;
        }
        kept := kept + [item];
      } else {
        var name := CookieName(item);
        if name == SESSION_COOKIE {
          continue;
        }
        kept := kept + [item];
      }
    }
    assert parts[|parts|..] == [];
  }

  function RestClean(l: List, values: seq<string>, i: nat): seq<string>
    requires i <= |values|
  {
    CleanValues(l, values[i..])
  }

  lemma CleanStep(l: List, values: seq<string>, i: nat, cleaned: seq<string>)
    requires i < |values|
    ensures var kept := Kept(l, Items(l, values[i]));
      cleaned + RestClean(l, values, i)
      == (if |kept| > 0 then cleaned + [Join(kept, [Separator(l), ' '])] else cleaned) + RestClean(l, values, i + 1)
  {
    hide Kept, Items, Join;
    assert values[i..][1..] == values[i + 1..];
  }

  lemma CleanEnds(l: List, values: seq<string>)
    ensures RestClean(l, values, 0) == CleanValues(l, values) && RestClean(l, values, |values|) == []
  {
    assert values[0..] == values;
  }

  /** The loop over the values of one header; an emptied value is left out. */
  method Clean(l: List, values: seq<string>) returns (cleaned: seq<string>)
    ensures cleaned == CleanValues(l, values)
  {
    cleaned := [];
    CleanEnds(l, values);
    hide CleanValues, RestClean, Kept, Items, Join;
    for i := 0 to |values|
      invariant CleanValues(l, values) == cleaned + RestClean(l, values, i)
    {
      CleanStep(l, values, i, cleaned);
      var kept := Filter(l, values[i]);
      if |kept| > 0 {
        cleaned := cleaned + [Join(kept, [Separator(l), ' '])];
      }
    }
  }

  // Injection

  predicate DistinctNames(pairs: seq<(string, string)>) {
    forall i, j :: 0 <= i < j < |pairs| ==> pairs[i].0 != pairs[j].0
  }

  lemma {:induction false} SetAllFacts(h: HeaderMap, pairs: seq<(string, string)>)
    requires DistinctNames(pairs)
    ensures forall i :: 0 <= i < |pairs| ==>
      pairs[i].0 in SetAll(h, pairs) && SetAll(h, pairs)[pairs[i].0] == [pairs[i].1]
    ensures forall k :: (forall i :: 0 <= i < |pairs| ==> pairs[i].0 != k) ==>
      (k in SetAll(h, pairs) <==> k in h) && (k in h ==> SetAll(h, pairs)[k] == h[k])
  {
    if pairs != [] { SetAllFacts(h, pairs[..|pairs| - 1]); }
  }

  lemma NamesDistinct(secret: string, u: User)
    ensures DistinctNames(ForgePairs(secret, u))
    ensures |ForgePairs(secret, u)| == |FORGE_NAMES|
    ensures forall i :: 0 <= i < |FORGE_NAMES| ==> ForgePairs(secret, u)[i].0 == FORGE_NAMES[i]
  {
    assert "X-Forge-Email"[8] == 'E' && "X-Forge-Roles"[8] == 'R';
    assert "X-Forge-Slack-User-Id"[14] == 'U' && "X-Forge-Slack-Team-Id"[14] == 'T';
    assert |"X-Forge-Proxy-Secret"| == 20 && |"X-Forge-Contract-Version"| == 24 && |"X-Forge-User-Id"| == 15;
    assert |"X-Forge-Email"| == 13 && |"X-Forge-Name"| == 12 && |"X-Forge-Avatar"| == 14;
    assert |"X-Forge-Roles"| == 13 && |"X-Forge-Slack-User-Id"| == 21 && |"X-Forge-Slack-Team-Id"| == 21;
  }

  /** The X-Forge part of a header map. */
  function ForgePart(h: HeaderMap): HeaderMap { map k | k in h && IsForge(k) :: h[k] }

  function Delivered(h: HeaderMap, secret: string, u: User): HeaderMap { SetAll(Stripped(h), ForgePairs(secret, u)) }

  lemma ListNamesNotForge()
    ensures !IsForge("Trailer") && !IsForge("Cookie")
    ensures forall i :: 0 <= i < |FORGE_NAMES| ==> FORGE_NAMES[i] != "Trailer" && FORGE_NAMES[i] != "Cookie"
  {
    TitleFirst("Trailer");
    TitleFirst("Cookie");
    hide CanonicalKey;
    assert CanonicalKey("Trailer")[0] == 'T' && CanonicalKey("Cookie")[0] == 'C';
    assert forall i :: 0 <= i < |FORGE_NAMES| ==> FORGE_NAMES[i][0] == 'X';
    assert "Trailer"[0] == 'T' && "Cookie"[0] == 'C';
  }

  lemma TitleFirst(s: string)
    requires s != ""
    ensures CanonicalKey(s) != "" && (CanonicalKey(s)[0] == s[0] || CanonicalKey(s)[0] == Upper(s[0]))
  {
  }

  /** Cleaning the two lists touches no other header. */
  lemma StrippedElsewhere(h: HeaderMap, k: string)
    requires k != "Trailer" && k != "Cookie"
    ensures k in Stripped(h) <==> k in StripKeys(h)
    ensures k in Stripped(h) ==> Stripped(h)[k] == h[k]
  {
    hide CleanValues, Deleted;
  }

  lemma NoForgeLeft(h: HeaderMap, k: string)
    requires AllCanonical(h) && k in Stripped(h)
    ensures !IsForge(k)
  {
    hide IsForge, CanonicalKey, Stripped;
    ListNamesNotForge();
    if k != "Trailer" && k != "Cookie" {
      StrippedElsewhere(h, k);
      ForgeSurvivesIff(h, k);
    }
  }

  /** What an upstream sees under X-Forge-*: the nine contract headers with one value each, and nothing
      else, whatever the client sent. */
  lemma ForgeHeadersExact(h: HeaderMap, secret: string, u: User)
    requires AllCanonical(h)
    ensures forall i :: 0 <= i < |FORGE_NAMES| ==>
      && FORGE_NAMES[i] in Delivered(h, secret, u)
      && Delivered(h, secret, u)[FORGE_NAMES[i]] == [ForgePairs(secret, u)[i].1]
    ensures forall k :: k in Delivered(h, secret, u) && IsForge(k) ==> k in FORGE_NAMES
  {
    NamesDistinct(secret, u);
    hide IsForge, CanonicalKey, Stripped, ForgePairs, AllCanonical;
    SetAllFacts(Stripped(h), ForgePairs(secret, u));
    forall i | 0 <= i < |FORGE_NAMES|
      ensures FORGE_NAMES[i] in Delivered(h, secret, u)
      ensures Delivered(h, secret, u)[FORGE_NAMES[i]] == [ForgePairs(secret, u)[i].1]
    {
      assert ForgePairs(secret, u)[i].0 == FORGE_NAMES[i];
    }
    forall k | k in Delivered(h, secret, u) && IsForge(k)
      ensures k in FORGE_NAMES
    {
      if forall i :: 0 <= i < |FORGE_NAMES| ==> FORGE_NAMES[i] != k {
        assert forall i :: 0 <= i < |ForgePairs(secret, u)| ==> ForgePairs(secret, u)[i].0 != k;
        NoForgeLeft(h, k);
      }
    }
  }

  /** Two runs: for any two clients the X-Forge headers that reach the upstream are the same function of
      the secret and the user. */
  lemma ForgeHeadersIndependent(h1: HeaderMap, h2: HeaderMap, secret: string, u: User)
    requires AllCanonical(h1) && AllCanonical(h2)
    ensures ForgePart(Delivered(h1, secret, u)) == ForgePart(Delivered(h2, secret, u))
  {
    hide IsForge, CanonicalKey, Delivered, ForgePairs, AllCanonical;
    ForgeHeadersExact(h1, secret, u);
    ForgeHeadersExact(h2, secret, u);
    var d1, d2 := Delivered(h1, secret, u), Delivered(h2, secret, u);
    forall k | k in FORGE_NAMES
      ensures k in d1 && k in d2 && d1[k] == d2[k]
    {
      var i :| 0 <= i < |FORGE_NAMES| && FORGE_NAMES[i] == k;
    }
  }

  /** Every other header arrives as it was sent, and the two lists as their kept entries in order. */
  lemma OtherHeadersKept(h: HeaderMap, secret: string, u: User, k: string)
    requires AllCanonical(h) && !IsForge(k) && k !in FORGE_NAMES
    ensures k != "Trailer" && k != "Cookie" ==>
      (k in Delivered(h, secret, u) <==> k in h) && (k in h ==> Delivered(h, secret, u)[k] == h[k])
    ensures forall l: List :: k == HeaderName(l) ==>
      ItemsOf(l, Delivered(h, secret, u)) == Kept(l, ItemsOf(l, h))
  {
    NamesDistinct(secret, u);
    hide IsForge, CanonicalKey, ForgePairs, AllCanonical;
    SetAllFacts(Stripped(h), ForgePairs(secret, u));
    assert forall i :: 0 <= i < |ForgePairs(secret, u)| ==> ForgePairs(secret, u)[i].0 != k by {
      forall i | 0 <= i < |ForgePairs(secret, u)|
        ensures ForgePairs(secret, u)[i].0 != k
      {
        assert FORGE_NAMES[i] in FORGE_NAMES;
      }
    }
    hide SetAll, Stripped;
    if k != "Trailer" && k != "Cookie" {
      StrippedElsewhere(h, k);
      ForgeSurvivesIff(h, k);
    }
    forall l: List | k == HeaderName(l)
      ensures ItemsOf(l, Stripped(h)) == Kept(l, ItemsOf(l, h))
    {
      ListKept(l, h);
    }
  }

  /** Nothing is left to filter out of this header. */
  predicate IsClean(l: List, h: HeaderMap) {
    HeaderName(l) in h ==> h[HeaderName(l)] != [] && CleanValues(l, h[HeaderName(l)]) == h[HeaderName(l)]
  }

  lemma CleanHeaderFacts(l: List, h: HeaderMap)
    ensures IsClean(l, CleanHeader(l, h))
    ensures IsClean(l, h) ==> CleanHeader(l, h) == h
    ensures forall k :: k != HeaderName(l) ==>
      (k in CleanHeader(l, h) <==> k in h) && (k in h ==> CleanHeader(l, h)[k] == h[k])
  {
    if HeaderName(l) in h { CleaningFilters(l, h[HeaderName(l)]); }
    hide CleanValues;
  }

  lemma ListCleaned(l: List, h: HeaderMap)
    ensures ItemsOf(l, CleanHeader(l, h)) == Kept(l, ItemsOf(l, h))
  {
    assert Kept(l, []) == [] && AllItems(l, []) == [];
    if HeaderName(l) in h { CleaningFilters(l, h[HeaderName(l)]); }
    hide CleanValues, Kept, AllItems;
  }

  lemma ListKept(l: List, h: HeaderMap)
    ensures ItemsOf(l, Stripped(h)) == Kept(l, ItemsOf(l, h))
  {
    var k := HeaderName(l);
    assert "Trailer"[0] != "Cookie"[0];
    ListNamesNotForge();
    ForgeSurvivesIff(h, k);
    hide IsForge, CanonicalKey, CleanHeader, Kept, AllItems, StripKeys;
    var names := CleanHeader(TrailerNames, StripKeys(h));
    CleanHeaderFacts(TrailerNames, StripKeys(h));
    CleanHeaderFacts(CookiePairs, names);
    ListCleaned(l, if l.TrailerNames? then StripKeys(h) else names);
  }

  /** Stripping twice is stripping once, for any header map at all. */
  lemma StripTwice(h: HeaderMap)
    ensures Stripped(Stripped(h)) == Stripped(h)
  {
    hide CleanHeader, CleanValues, StripKeys;
    assert "Trailer"[0] != "Cookie"[0];
    var names := CleanHeader(TrailerNames, StripKeys(h));
    var once := CleanHeader(CookiePairs, names);
    CleanHeaderFacts(TrailerNames, StripKeys(h));
    CleanHeaderFacts(CookiePairs, names);
    assert IsClean(TrailerNames, once);
    CleanNoNewKeys(h);
    StripKeysTwice(h, once);
    CleanHeaderFacts(TrailerNames, once);
    CleanHeaderFacts(CookiePairs, once);
  }

  lemma CleanNoNewKeys(h: HeaderMap)
    ensures forall k :: k in Stripped(h) ==> k in StripKeys(h)
  {
    hide CleanValues, StripKeys;
  }

  /** What a strip left has nothing more to strip: the keys that Del would take are gone already. */
  lemma StripKeysTwice(h: HeaderMap, t: HeaderMap)
    requires forall k :: k in t ==> k in StripKeys(h)
    ensures StripKeys(t) == t
  {
    hide CanonicalKey;
  }
}
