/** The panel derives a systemd unit name from a server's name (server-bootstrap.service.ts); the agent only
    touches units whose name matches its own pattern (config.go). The two never meet in one program: here
    every derived name is shown to be accepted. */
module ServiceName {
  import opened Base

  const SLUG_LIMIT: nat := 64

  /** The Unicode operations, which are not modelled: lower-casing in the Russian locale, compatibility
      decomposition (NFKD), and locale-free lower-casing. */
  datatype Unicode = Unicode(lowerRu: string -> string, nfkd: string -> string, lower: string -> string)

  predicate Alnum(c: char) {
    'a' <= c <= 'z' || '0' <= c <= '9'
  }

  // ---------- the agent's pattern ----------

  predicate IsWord(s: string) {
    s != [] && forall c <- s :: Alnum(c)
  }

  function Join(words: seq<string>): string {
    if words == [] then []
    else if |words| == 1 then words[0]
    else words[0] + "-" + Join(words[1..])
  }

  /** `[a-z0-9]+(?:-[a-z0-9]+)*` */
  ghost predicate IsSlug(s: string) {
    exists words :: words != [] && (forall w <- words :: IsWord(w)) && s == Join(words)
  }

  /** `validUnitName`: `^gravit-…\.service$`, and not too long. */
  ghost predicate ValidUnitName(unit: string) {
    && |unit| <= |"gravit-"| + SLUG_LIMIT + |".service"|
    && exists slug :: IsSlug(slug) && unit == "gravit-" + slug + ".service"
  }

  // ---------- the panel's slug ----------

  /** The lower-case Cyrillic letters and their Latin spelling. */
  function Latin(c: char): string {
    match c
    case '\U{0430}' => "a" case '\U{0431}' => "b" case '\U{0432}' => "v" case '\U{0433}' => "g"
    case '\U{0434}' => "d" case '\U{0435}' => "e" case '\U{0451}' => "yo" case '\U{0436}' => "zh"
    case '\U{0437}' => "z" case '\U{0438}' => "i" case '\U{0439}' => "y" case '\U{043A}' => "k"
    case '\U{043B}' => "l" case '\U{043C}' => "m" case '\U{043D}' => "n" case '\U{043E}' => "o"
    case '\U{043F}' => "p" case '\U{0440}' => "r" case '\U{0441}' => "s" case '\U{0442}' => "t"
    case '\U{0443}' => "u" case '\U{0444}' => "f" case '\U{0445}' => "kh" case '\U{0446}' => "ts"
    case '\U{0447}' => "ch" case '\U{0448}' => "sh" case '\U{0449}' => "shch" case '\U{044A}' => ""
    case '\U{044B}' => "i" case '\U{044C}' => "" case '\U{044D}' => "e" case '\U{044E}' => "yu"
    case '\U{044F}' => "ya"
    case _ => [c]
  }

  function Transliterate(s: string): string {
    if s == [] then [] else Latin(s[0]) + Transliterate(s[1..])
  }

  /** Removes the combining diacritical marks. */
  function StripMarks(s: string): string {
    if s == [] then []
    else (if '\U{0300}' <= s[0] <= '\U{036F}' then [] else [s[0]]) + StripMarks(s[1..])
  }

  function Folded(u: Unicode, name: string): string {
    StripMarks(u.nfkd(Transliterate(u.lowerRu(name))))
  }

  /** Length of the leading run of other characters. */
  function JunkLength(s: string): (n: nat)
    ensures n <= |s| && (n < |s| ==> Alnum(s[n]))
    ensures s != [] && !Alnum(s[0]) ==> n > 0
  {
    if s != [] && !Alnum(s[0]) then 1 + JunkLength(s[1..]) else 0
  }

  /** Length of the leading run of letters and digits. */
  function WordLength(s: string): (n: nat)
    ensures n <= |s| && (n < |s| ==> !Alnum(s[n]))
    ensures s != [] && Alnum(s[0]) ==> n > 0
    ensures forall c <- s[..n] :: Alnum(c)
  {
    if s != [] && Alnum(s[0]) then
      var n := 1 + WordLength(s[1..]);
      assert s[..n] == [s[0]] + s[1..][..n - 1];
      n
    else 0
  }

  /** `replace(/[^a-z0-9]+/g, '-')` */
  function Collapse(s: string): string
    decreases |s|
  {
    if s == [] then []
    else if Alnum(s[0]) then [s[0]] + Collapse(s[1..])
    else "-" + Collapse(s[JunkLength(s)..])
  }

  function TrimLeft(s: string): string {
    if s != [] && s[0] == '-' then TrimLeft(s[1..]) else s
  }

  function TrimRight(s: string): string {
    if s != [] && s[|s| - 1] == '-' then TrimRight(s[..|s| - 1]) else s
  }

  function ReadableSlug(u: Unicode, name: string): string {
    TrimRight(Cut(TrimRight(TrimLeft(Collapse(Folded(u, name)))), SLUG_LIMIT))
  }

  function ServerServiceSlug(u: Unicode, name: string, bindingId: string): string {
    var slug := ReadableSlug(u, name);
    if slug != "" then slug else "server-" + u.lower(Cut(bindingId, 8))
  }

  function UnitName(u: Unicode, name: string, bindingId: string): string {
    "gravit-" + ServerServiceSlug(u, name, bindingId) + ".service"
  }

  // ---------- words ----------

  /** The maximal runs of letters and digits: what the slug is made of. */
  function Words(s: string): (r: seq<string>)
    ensures forall w <- r :: IsWord(w)
    ensures r == [] <==> forall c <- s :: !Alnum(c)
    decreases |s|
  {
    var t := s[JunkLength(s)..];
    JunkOnly(s);
    if t == [] then []
    else
      var n := WordLength(t);
      assert s[JunkLength(s)] == t[0];
      [t[..n]] + Words(t[n..])
  }

  lemma {:induction false} JunkOnly(s: string)
    ensures forall c <- s[..JunkLength(s)] :: !Alnum(c)
    ensures JunkLength(s) == |s| ==> s[..JunkLength(s)] == s
  {
    if s != [] && !Alnum(s[0]) {
      JunkOnly(s[1..]);
      assert s[..JunkLength(s)] == [s[0]] + s[1..][..JunkLength(s) - 1];
    }
  }

  lemma {:induction false} CollapseWord(s: string)
    ensures Collapse(s) == s[..WordLength(s)] + Collapse(s[WordLength(s)..])
  {
    var n := WordLength(s);
    if n == 0 {
      assert s[..0] + Collapse(s) == Collapse(s) && s[0..] == s;
    } else {
      CollapseWord(s[1..]);
      CollapseFirst(s);
      hide Collapse;
      hide WordLength;
      OneFurther(s, n);
      Prepend(s[0], s[1..][..n - 1], Collapse(s[n..]));
    }
  }

  lemma {:induction false} CollapseFirst(s: string)
    requires WordLength(s) > 0
    ensures WordLength(s[1..]) == WordLength(s) - 1 && Collapse(s) == [s[0]] + Collapse(s[1..])
  {
  }

  lemma OneFurther(s: string, n: nat)
    requires 0 < n <= |s|
    ensures s[1..][n - 1..] == s[n..] && [s[0]] + s[1..][..n - 1] == s[..n]
  {
  }

  lemma Prepend(c: char, w: string, rest: string)
    ensures [c] + (w + rest) == ([c] + w) + rest
  {
  }

  function DashIf(b: bool): string {
    if b then "-" else ""
  }

  lemma {:induction false} CollapseJoins(s: string)
    requires s == [] || Alnum(s[0])
    ensures Collapse(s) == Join(Words(s)) + DashIf(s != [] && !Alnum(s[|s| - 1]))
    decreases |s|
  {
    if s != [] {
      var w, r := s[..WordLength(s)], s[WordLength(s)..];
      CollapseWord(s);
      WordsFirst(s);
      if r == [] {
        assert s == w && s[|s| - 1] in w;
      } else {
        var q := r[JunkLength(r)..];
        assert r[0] == s[WordLength(s)] && r[|r| - 1] == s[|s| - 1];
        AfterWord(r);
        if q != [] {
          CollapseJoins(q);
          hide Collapse;
          hide Words;
          hide Join;
          hide JunkLength;
          hide WordLength;
          SumRegroups(w, "-", Join(Words(q)), DashIf(!Alnum(q[|q| - 1])));
        }
      }
    }
  }

  /** What follows a word: other characters, then words again or nothing. */
  lemma {:induction false} AfterWord(r: string)
    requires r != [] && !Alnum(r[0])
    ensures var q := r[JunkLength(r)..];
            && |q| < |r| && Words(r) == Words(q) && Collapse(r) == "-" + Collapse(q)
            && (if q == [] then !Alnum(r[|r| - 1]) && Words(q) == [] && Collapse(r) == "-"
                else Alnum(q[0]) && q[|q| - 1] == r[|r| - 1] && Words(q) != [])
  {
    var q := r[JunkLength(r)..];
    WordsAfterJunk(r);
    AfterJunk(r);
    if q != [] {
      StartsWithWord(q);
    }
  }

  lemma SumRegroups(a: string, b: string, c: string, d: string)
    ensures a + (b + (c + d)) == (a + (b + c)) + d
  {
  }

  lemma JoinCons(w: string, rest: seq<string>)
    ensures Join([w] + rest) == if rest == [] then w else w + ("-" + Join(rest))
  {
    var words := [w] + rest;
    assert words[1..] == rest;
    if rest == [] {
      assert words == [w];
    }
  }

  lemma WordsFirst(s: string)
    requires s != [] && Alnum(s[0])
    ensures var w, rest := s[..WordLength(s)], Words(s[WordLength(s)..]);
            Words(s) == [w] + rest && Join(Words(s)) == if rest == [] then w else w + ("-" + Join(rest))
  {
    assert s[0..] == s;
    hide Join;
    JoinCons(s[..WordLength(s)], Words(s[WordLength(s)..]));
  }

  lemma WordsAfterJunk(s: string)
    ensures Words(s) == Words(s[JunkLength(s)..])
  {
    var q := s[JunkLength(s)..];
    assert q[0..] == q;
  }

  lemma AfterJunk(s: string)
    requires s != []
    ensures var q := s[JunkLength(s)..];
            if q == [] then !Alnum(s[|s| - 1]) else q[|q| - 1] == s[|s| - 1]
  {
    JunkOnly(s);
    assert s[|s| - 1] in s;
  }

  lemma StartsWithWord(s: string)
    requires s != [] && Alnum(s[0])
    ensures Words(s) != []
  {
    assert s[0] in s;
  }

  // ---------- the shape of a slug, character by character ----------

  /** Letters, digits and single hyphens, with no hyphen at either end. */
  ghost predicate Hyphenated(s: string) {
    && s != [] && s[0] != '-' && s[|s| - 1] != '-'
    && (forall c <- s :: Alnum(c) || c == '-')
    && forall i :: 0 <= i < |s| - 1 ==> s[i] != '-' || s[i + 1] != '-'
  }

  lemma {:induction false} JoinIsHyphenated(words: seq<string>)
    requires words != [] && forall w <- words :: IsWord(w)
    ensures Hyphenated(Join(words))
  {
    var w := words[0];
    assert w in words && w[0] in w && w[|w| - 1] in w;
    if |words| > 1 {
      JoinIsHyphenated(words[1..]);
      var rest, s := Join(words[1..]), Join(words);
      assert s == w + "-" + rest;
      forall i | 0 <= i < |s| - 1 ensures s[i] != '-' || s[i + 1] != '-' {
        if i < |w| {
          assert s[i] in w;
        } else if i > |w| {
          assert s[i] == rest[i - |w| - 1] && s[i + 1] == rest[i - |w|];
        }
      }
      forall c | c in s ensures Alnum(c) || c == '-' {
        assert c in w || c == '-' || c in rest;
      }
    } else {
      forall i | 0 <= i < |w| - 1 ensures w[i] != '-' {
        assert w[i] in w;
      }
    }
  }

  lemma HyphenatedHasAlnum(s: string)
    requires Hyphenated(s)
    ensures Alnum(s[0]) && Alnum(s[|s| - 1])
  {
    assert s[0] in s && s[|s| - 1] in s;
  }

  /** Such a string is the join of its words. */
  lemma {:induction false} HyphenatedIsJoin(s: string)
    requires Hyphenated(s)
    ensures Join(Words(s)) == s && IsSlug(s)
    decreases |s|
  {
    HyphenatedHasAlnum(s);
    HyphenatedCollapses(s);
    CollapseJoins(s);
    assert s[0] in s;
    assert Words(s) != [];
    assert Join(Words(s)) + "" == Join(Words(s));
  }

  /** Nothing is left to collapse in it. */
  lemma {:induction false} HyphenatedCollapses(s: string)
    requires s == [] || ((forall c <- s :: Alnum(c) || c == '-')
                         && forall i :: 0 <= i < |s| - 1 ==> s[i] != '-' || s[i + 1] != '-')
    ensures Collapse(s) == s
  {
    if s != [] {
      assert s == [s[0]] + s[1..];
      HyphenatedCollapses(s[1..]);
      if !Alnum(s[0]) {
        assert s[0] in s && s[0] == '-';
        assert |s| > 1 ==> s[1] in s && s[0 + 1] != '-';
        assert JunkLength(s[1..]) == 0;
        assert s[1..][0..] == s[1..];
      }
    }
  }

  /** The agent's pattern, character by character. */
  lemma SlugExactlyHyphenated(s: string)
    ensures IsSlug(s) <==> Hyphenated(s)
  {
    if IsSlug(s) {
      var words :| words != [] && (forall w <- words :: IsWord(w)) && s == Join(words);
      JoinIsHyphenated(words);
    }
    if Hyphenated(s) {
      HyphenatedIsJoin(s);
    }
  }

  lemma {:induction false} TrimRightFacts(s: string)
    ensures TrimRight(s) <= s && (TrimRight(s) != [] ==> TrimRight(s)[|TrimRight(s)| - 1] != '-')
    ensures s != [] && s[0] != '-' ==> TrimRight(s) != []
  {
    if s != [] && s[|s| - 1] == '-' {
      TrimRightFacts(s[..|s| - 1]);
    }
  }

  /** A hyphenated string cut anywhere and trimmed is hyphenated. */
  lemma CutIsHyphenated(s: string, limit: nat)
    requires Hyphenated(s) && limit > 0
    ensures Hyphenated(TrimRight(Cut(s, limit))) && TrimRight(Cut(s, limit)) <= s && |TrimRight(Cut(s, limit))| <= limit
  {
    var p := Cut(s, limit);
    TrimRightFacts(p);
    var t := TrimRight(p);
    assert t == s[..|t|];
    forall c | c in t ensures Alnum(c) || c == '-' {
      assert c in s;
    }
    forall i | 0 <= i < |t| - 1 ensures t[i] != '-' || t[i + 1] != '-' {
      assert t[i] == s[i] && t[i + 1] == s[i + 1];
    }
  }

  // ---------- what the pipeline computes ----------

  lemma {:induction false} TrimmedCollapseIsJoin(s: string)
    ensures TrimRight(TrimLeft(Collapse(s))) == Join(Words(s))
  {
    var q := s[JunkLength(s)..];
    hide *;
    CollapseJunk(s);
    WordsAfterJunk(s);
    CollapseJoins(q) by {
      JunkIsGone(s);
    }
    if q != [] {
      JunkIsGone(s);
      JoinedWords(q);
      HyphenatedTrim(Join(Words(q)), !Alnum(q[|q| - 1]));
    } else {
      NothingToTrim();
    }
  }

  lemma JunkIsGone(s: string)
    ensures var q := s[JunkLength(s)..]; q == [] || Alnum(q[0])
  {
  }

  lemma JoinedWords(q: string)
    requires q != [] && Alnum(q[0])
    ensures Hyphenated(Join(Words(q)))
  {
    StartsWithWord(q);
    JoinIsHyphenated(Words(q));
  }

  lemma HyphenatedTrim(core: string, dashed: bool)
    requires Hyphenated(core)
    ensures TrimRight(TrimLeft(core + DashIf(dashed))) == core
    ensures TrimRight(TrimLeft("-" + (core + DashIf(dashed)))) == core
  {
    TrimCore(core, dashed);
  }

  lemma NothingToTrim()
    ensures Words("") == [] && Join([]) == "" && Collapse("") == ""
    ensures TrimRight(TrimLeft("")) == "" && TrimRight(TrimLeft("-" + "")) == ""
  {
    assert "-"[1..] == "" && "-" + "" == "-";
  }

  lemma CollapseJunk(s: string)
    ensures var q := s[JunkLength(s)..];
            Collapse(s) == if s != [] && !Alnum(s[0]) then "-" + Collapse(q) else Collapse(q)
  {
    assert s[0..] == s;
  }

  lemma TrimCore(core: string, dashed: bool)
    requires core != [] && core[0] != '-' && core[|core| - 1] != '-'
    ensures TrimRight(TrimLeft(core + DashIf(dashed))) == core
    ensures TrimRight(TrimLeft("-" + (core + DashIf(dashed)))) == core
  {
    var t := core + DashIf(dashed);
    assert t[0] == core[0] && ("-" + t)[1..] == t;
    assert TrimLeft(t) == t && TrimLeft("-" + t) == t;
    if dashed {
      assert t[..|t| - 1] == core;
    } else {
      assert t == core;
    }
  }

  /** The slug is the words of the folded name joined by hyphens, cut at 64 characters without leaving a
      hyphen at the end; a name without any letter or digit gets the fallback. */
  lemma SlugIsJoinedWords(u: Unicode, name: string, bindingId: string)
    ensures var words := Words(Folded(u, name));
            ServerServiceSlug(u, name, bindingId) ==
            if words == [] then "server-" + u.lower(Cut(bindingId, 8)) else TrimRight(Cut(Join(words), 64))
  {
    var words := Words(Folded(u, name));
    TrimmedCollapseIsJoin(Folded(u, name));
    if words != [] {
      JoinIsHyphenated(words);
      CutIsHyphenated(Join(words), SLUG_LIMIT);
    }
  }

  // ---------- panel and agent agree ----------

  lemma AffixesAreUnique(slug: string, other: string)
    requires "gravit-" + slug + ".service" == "gravit-" + other + ".service"
    ensures slug == other
  {
    assert |slug| == |other|;
    forall i | 0 <= i < |slug| ensures slug[i] == other[i] {
      assert ("gravit-" + slug + ".service")[7 + i] == slug[i];
      assert ("gravit-" + other + ".service")[7 + i] == other[i];
    }
  }

  lemma ValidUnitExactly(slug: string)
    ensures ValidUnitName("gravit-" + slug + ".service") <==> Hyphenated(slug) && |slug| <= 64
  {
    var unit := "gravit-" + slug + ".service";
    SlugExactlyHyphenated(slug);
    if ValidUnitName(unit) {
      var other :| IsSlug(other) && unit == "gravit-" + other + ".service";
      AffixesAreUnique(slug, other);
    }
  }

  lemma FallbackHyphenated(id: string)
    ensures Hyphenated("server-" + id) <==> Hyphenated(id)
  {
    var s := "server-" + id;
    assert forall i :: 0 <= i < |id| ==> s[7 + i] == id[i];
    assert s[6] == '-';
    if Hyphenated(id) {
      forall c | c in s ensures Alnum(c) || c == '-' {
        assert c in "server-" || c in id;
      }
    }
    if Hyphenated(s) {
      assert id != [] && s[6 + 1] == id[0];
      forall c | c in id ensures Alnum(c) || c == '-' {
        assert c in s;
      }
      forall i | 0 <= i < |id| - 1 ensures id[i] != '-' || id[i + 1] != '-' {
        assert s[7 + i] != '-' || s[7 + i + 1] != '-';
      }
    }
  }

  /** Exactly when the agent accepts the panel's unit: when the folded name has a letter or digit, or else
      when the first eight characters of the binding id have the form of a slug and not too many letters
      after lower-casing. */
  lemma AcceptedExactlyWhen(u: Unicode, name: string, bindingId: string)
    ensures ValidUnitName(UnitName(u, name, bindingId)) <==>
              || (exists c <- Folded(u, name) :: Alnum(c))
              || (Hyphenated(u.lower(Cut(bindingId, 8))) && |u.lower(Cut(bindingId, 8))| <= SLUG_LIMIT - 7)
  {
    var words := Words(Folded(u, name));
    SlugIsJoinedWords(u, name, bindingId);
    ValidUnitExactly(ServerServiceSlug(u, name, bindingId));
    if words == [] {
      FallbackHyphenated(u.lower(Cut(bindingId, 8)));
    } else {
      JoinIsHyphenated(words);
      CutIsHyphenated(Join(words), SLUG_LIMIT);
    }
  }

  predicate Hex(c: char) {
    '0' <= c <= '9' || 'a' <= c <= 'f' || 'A' <= c <= 'F'
  }

  predicate IsUuid(id: string) {
    |id| == 36 && forall i :: 0 <= i < 36 ==> if i in {8, 13, 18, 23} then id[i] == '-' else Hex(id[i])
  }

  function LowerHex(c: char): char
    requires Hex(c)
  {
    match c
    case 'A' => 'a' case 'B' => 'b' case 'C' => 'c' case 'D' => 'd' case 'E' => 'e' case 'F' => 'f'
    case _ => c
  }

  /** What is known of lower-casing: hexadecimal digits, character by character. */
  ghost predicate LowersHex(u: Unicode) {
    forall s: string :: AllHex(s) ==> IsLowered(s, u.lower(s))
  }

  predicate AllHex(s: string) {
    forall i :: 0 <= i < |s| ==> Hex(s[i])
  }

  predicate IsLowered(s: string, low: string)
    requires AllHex(s)
  {
    |low| == |s| && forall i :: 0 <= i < |s| ==> low[i] == LowerHex(s[i])
  }

  /** For every server name and every UUID the agent accepts the unit the panel names. */
  lemma UnitNameAccepted(u: Unicode, name: string, bindingId: string)
    requires IsUuid(bindingId) && LowersHex(u)
    ensures ValidUnitName(UnitName(u, name, bindingId))
  {
    AcceptedExactlyWhen(u, name, bindingId);
    UuidHead(bindingId);
    LoweredHex(u, Cut(bindingId, 8));
  }

  lemma UuidHead(id: string)
    requires IsUuid(id)
    ensures |Cut(id, 8)| == 8 && AllHex(Cut(id, 8))
  {
    forall i | 0 <= i < 8 ensures Hex(id[i]) {
      assert i !in {8, 13, 18, 23};
    }
  }

  lemma LoweredHex(u: Unicode, s: string)
    requires LowersHex(u) && s != [] && AllHex(s)
    ensures Hyphenated(u.lower(s)) && |u.lower(s)| == |s|
  {
    var low := u.lower(s);
    assert IsLowered(s, low);
    forall i | 0 <= i < |low| ensures Alnum(low[i]) && low[i] != '-' {
      assert Hex(s[i]);
    }
  }

  /** A server named after its own slug keeps it: deriving is idempotent, provided the Unicode operations
      leave the slug alone. */
  lemma SlugIsFixed(u: Unicode, name: string, bindingId: string, otherId: string)
    requires ValidUnitName(UnitName(u, name, bindingId))
    requires var slug := ServerServiceSlug(u, name, bindingId);
             u.lowerRu(slug) == slug && u.nfkd(slug) == slug
    ensures var slug := ServerServiceSlug(u, name, bindingId);
            ServerServiceSlug(u, slug, otherId) == slug
  {
    var slug := ServerServiceSlug(u, name, bindingId);
    ValidUnitExactly(slug);
    AsciiIsFolded(slug);
    HyphenatedIsJoin(slug);
    HyphenatedHasAlnum(slug);
    assert slug[0] in slug && Words(slug) != [];
    SlugIsJoinedWords(u, slug, otherId);
    assert TrimRight(slug) == slug;
  }

  lemma {:induction false} AsciiIsFolded(s: string)
    requires forall c <- s :: Alnum(c) || c == '-'
    ensures Transliterate(s) == s && StripMarks(s) == s
  {
    if s != [] {
      assert s == [s[0]] + s[1..] && s[0] in s;
      AsciiIsFolded(s[1..]);
    }
  }

  // ---------- folding ----------

  predicate Mark(c: char) {
    '\U{0300}' <= c <= '\U{036F}'
  }

  /** A lower-case letter of the Russian alphabet. */
  predicate Cyrillic(c: char) {
    '\U{0430}' <= c <= '\U{044F}' || c == '\U{0451}'
  }

  predicate Plain(s: string) {
    forall c <- s :: c < '\U{0080}'
  }

  lemma TransliterateHead(s: string)
    requires s != []
    ensures Transliterate(s) == Latin(s[0]) + Transliterate(s[1..])
  {
    hide Latin;
  }

  /** Letter by letter. */
  lemma {:induction false} TransliterateSums(a: string, b: string)
    ensures Transliterate(a + b) == Transliterate(a) + Transliterate(b)
  {
    hide *;
    if a == [] {
      assert a + b == b;
      TransliterateNone();
    } else {
      TransliterateHead(a);
      TransliterateHead(a + b);
      TransliterateSums(a[1..], b);
      assert (a + b)[0] == a[0] && (a + b)[1..] == a[1..] + b;
      SumRegroupsThree(Latin(a[0]), Transliterate(a[1..]), Transliterate(b));
    }
  }

  lemma TransliterateNone()
    ensures Transliterate([]) == []
  {
  }

  lemma SumRegroupsThree(a: string, b: string, c: string)
    ensures a + (b + c) == (a + b) + c
  {
  }

  /** A name from the panel's own tests. */
  lemma GlavniyIsSpelled()
    ensures Transliterate("\U{0433}\U{043B}\U{0430}\U{0432}\U{043D}\U{044B}\U{0439}") == "glavniy"
  {
    var s := "\U{0433}\U{043B}\U{0430}\U{0432}\U{043D}\U{044B}\U{0439}";
    assert s[0..] == s;
    assert s[0..][1..] == s[1..];
    assert s[1..][1..] == s[2..];
    assert s[2..][1..] == s[3..];
    assert s[3..][1..] == s[4..];
    assert s[4..][1..] == s[5..];
    assert s[5..][1..] == s[6..];
    assert s[6..][1..] == [];
    assert Transliterate(s[6..]) == "y";
    assert Transliterate(s[5..]) == "iy";
    assert Transliterate(s[4..]) == "niy";
    assert Transliterate(s[3..]) == "vniy";
    assert Transliterate(s[2..]) == "avniy";
    assert Transliterate(s[1..]) == "lavniy";
    assert Transliterate(s[0..]) == "glavniy";
  }

  /** Marks are dropped, and nothing else. */
  lemma {:induction false} StripMarksExactly(s: string, t: string, c: char)
    ensures StripMarks(s + t) == StripMarks(s) + StripMarks(t)
    ensures StripMarks([c]) == if Mark(c) then [] else [c]
    ensures forall x :: x in StripMarks(s) <==> x in s && !Mark(x)
  {
    assert [c][1..] == [];
    if s == [] {
      assert s + t == t;
    } else {
      StripMarksExactly(s[1..], t, c);
      assert (s + t)[1..] == s[1..] + t;
      assert s == [s[0]] + s[1..];
    }
  }

  /** No mark is left of a name, whatever its letters decompose into. */
  lemma FoldedHasNoMarks(u: Unicode, name: string, c: char)
    requires c in Folded(u, name)
    ensures !Mark(c)
  {
    StripMarksExactly(u.nfkd(Transliterate(u.lowerRu(name))), [], c);
  }

  lemma {:induction false} SpellingIsPlain(s: string)
    requires forall c <- s :: c < '\U{0080}' || Cyrillic(c)
    ensures Plain(Transliterate(s)) && StripMarks(Transliterate(s)) == Transliterate(s)
  {
    if s != [] {
      assert s == [s[0]] + s[1..];
      SpellingIsPlain(s[1..]);
      LatinIsPlain(s[0]);
      hide Latin;
      StripMarksExactly(Latin(s[0]), Transliterate(s[1..]), s[0]);
      PlainHasNoMarks(Latin(s[0]));
    }
  }

  lemma LatinIsPlain(c: char)
    requires c < '\U{0080}' || Cyrillic(c)
    ensures Plain(Latin(c))
  {
  }

  lemma {:induction false} PlainHasNoMarks(s: string)
    requires Plain(s)
    ensures StripMarks(s) == s
  {
    if s != [] {
      assert s == [s[0]] + s[1..] && s[0] in s;
      assert forall c <- s[1..] :: c in s;
      PlainHasNoMarks(s[1..]);
    }
  }

  /** A Russian or plain name is spelled before anything is decomposed, so that no letter loses its mark. */
  lemma RussianNamesAreSpelled(u: Unicode, name: string)
    requires forall c <- u.lowerRu(name) :: c < '\U{0080}' || Cyrillic(c)
    requires forall s: string :: Plain(s) ==> u.nfkd(s) == s
    ensures Folded(u, name) == Transliterate(u.lowerRu(name))
  {
    SpellingIsPlain(u.lowerRu(name));
  }
}
