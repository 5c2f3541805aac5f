/**
 * The Sefaria client: the volume catalog (loaded once), lookup by English
 * name, text cleaning, fetching a whole siman and drawing a random siman
 * that has usable text. The HTTP call to the texts API is the client's
 * `getText` oracle; the catalog file is the client's `catalogFile`.
 */
module Sefaria {
  import opened Wrappers
  import opened Text
  import opened Decimal
  import opened Models
  import opened Random

  /** English names of the four volumes, in the order the selector shuffles them. */
  const VolumeNames: seq<string> := ["Orach Chaim", "Yoreh De'ah", "Even HaEzer", "Choshen Mishpat"]

  const WebUrl: string := "https://www.sefaria.org"

  /** Attempts `GetRandomHalacha` makes before giving up. */
  const MaxAttempts: nat := 10

  /** The `he` field of a texts-API answer. */
  datatype HeField = HeMissing | HeText(text: string) | HeSeifim(items: seq<string>)

  /** What `get_text` returns: nothing on a request error, else the JSON body
      (an empty body behaves as one without `he`). */
  datatype Fetched = Unavailable | Body(he: HeField)

  // ---------------------------------------------------------------------
  // Removing markup: `re.sub(r"<[^>]+>", "", text)`
  // ---------------------------------------------------------------------

  predicate NoGt(s: string) {
    forall j :: 0 <= j < |s| ==> s[j] != '>'
  }

  /** The pattern `<[^>]+>` matches at the start of `s`: a `<`, at least one
      character other than `>`, then a `>`. */
  predicate TagStart(s: string) {
    |s| >= 2 && s[0] == '<' && s[1] != '>' && !NoGt(s[1..])
  }

  /** No position of `s` starts a match of the tag pattern. */
  ghost predicate NoTag(s: string) {
    forall i :: 0 <= i < |s| ==> !TagStart(s[i..])
  }

  /** Length of the tag `TagStart` found: it runs to the first `>`. */
  function TagLength(s: string): (n: nat)
    requires TagStart(s)
    ensures 3 <= n <= |s| && s[n - 1] == '>' && NoGt(s[1..n - 1])
  {
    IndexOf(s[1..], '>') + 2
  }

  /** Leftmost, non-overlapping removal of tags, scanning as `re.sub` does. */
  function StripTags(s: string): (r: string)
    ensures |r| <= |s|
    decreases |s|
  {
    if s == [] then []
    else if TagStart(s) then StripTags(s[TagLength(s)..])
    else [s[0]] + StripTags(s[1..])
  }

  lemma {:induction false} StripTagsNoGt(s: string)
    requires NoGt(s)
    ensures StripTags(s) == s
    decreases |s|
  {
    if s != [] {
      StripTagsNoGt(s[1..]);
    }
  }

  lemma {:induction false} StripTagsKeepsNoGt(s: string)
    requires NoGt(s)
    ensures NoGt(StripTags(s))
  {
    StripTagsNoGt(s);
  }

  lemma StripTagsLeadingGt(s: string)
    requires s != [] && s[0] == '>'
    ensures StripTags(s) != [] && StripTags(s)[0] == '>'
  {
  }

  /** Prefixing a character that does not start a tag keeps a tag-free string tag-free. */
  lemma NoTagCons(c: char, s: string)
    requires NoTag(s) && !TagStart([c] + s)
    ensures NoTag([c] + s)
  {
    var t := [c] + s;
    forall i | 0 <= i < |t|
      ensures !TagStart(t[i..])
    {
      if i > 0 {
        assert t[i..] == s[i - 1..];
      }
    }
  }

  /** The character before a kept character does not begin a tag across it. */
  lemma KeptPrefixNoTag(s: string, rest: string)
    requires s != [] && !TagStart(s)
    requires s[1..] == [] ==> rest == []
    requires |s| >= 2 && s[1] == '>' ==> rest != [] && rest[0] == '>'
    requires NoGt(s[1..]) ==> NoGt(rest)
    ensures !TagStart([s[0]] + rest)
  {
    var t := [s[0]] + rest;
    assert t[1..] == rest;
  }

  /** No tag survives `StripTags`. */
  lemma {:induction false} StripTagsNoTag(s: string)
    ensures NoTag(StripTags(s))
    decreases |s|
  {
    if s == [] {
    } else if TagStart(s) {
      StripTagsNoTag(s[TagLength(s)..]);
    } else {
      var rest := StripTags(s[1..]);
      StripTagsNoTag(s[1..]);
      if |s| >= 2 && s[1] == '>' {
        StripTagsLeadingGt(s[1..]);
      }
      if NoGt(s[1..]) {
        StripTagsKeepsNoGt(s[1..]);
      }
      KeptPrefixNoTag(s, rest);
      NoTagCons(s[0], rest);
    }
  }

  /** A string without tags is left as it is. */
  lemma {:induction false} StripTagsIdentity(s: string)
    requires NoTag(s)
    ensures StripTags(s) == s
    decreases |s|
  {
    if s != [] {
      assert !TagStart(s[0..]);
      assert s[0..] == s;
      NoTagSuffix(s, 1);
      StripTagsIdentity(s[1..]);
    }
  }

  lemma NoTagSuffix(s: string, k: nat)
    requires NoTag(s) && k <= |s|
    ensures NoTag(s[k..])
  {
    var t := s[k..];
    forall i | 0 <= i < |t|
      ensures !TagStart(t[i..])
    {
      assert t[i..] == s[k + i..];
    }
  }

  lemma NoTagPrefix(s: string, k: nat)
    requires NoTag(s) && k <= |s|
    ensures NoTag(s[..k])
  {
    var p := s[..k];
    forall i | 0 <= i < |p|
      ensures !TagStart(p[i..])
    {
      assert !TagStart(s[i..]);
      if i + 1 < |p| {
        assert p[i + 1..] == s[i + 1..k];
        assert NoGt(s[i + 1..]) ==> NoGt(p[i + 1..]);
      }
    }
  }

  // ---------------------------------------------------------------------
  // Normalising whitespace: `re.sub(r"\s+", " ", text).strip()`
  // ---------------------------------------------------------------------

  /** Every whitespace character is a plain space and none follows another. */
  predicate SingleSpaced(s: string) {
    forall i :: 0 <= i < |s| && IsSpace(s[i]) ==> s[i] == ' ' && (i + 1 < |s| ==> !IsSpace(s[i + 1]))
  }

  /** Each maximal run of whitespace becomes one space. */
  function Collapse(s: string): (r: string)
    ensures |r| <= |s|
    decreases |s|
  {
    if s == [] then []
    else if IsSpace(s[0]) then " " + Collapse(LStrip(s))
    else [s[0]] + Collapse(s[1..])
  }

  lemma CollapseFirst(s: string)
    requires s != [] && !IsSpace(s[0])
    ensures Collapse(s) != [] && Collapse(s)[0] == s[0]
  {
  }

  lemma {:induction false} CollapseSingleSpaced(s: string)
    ensures SingleSpaced(Collapse(s))
    decreases |s|
  {
    if s == [] {
    } else if IsSpace(s[0]) {
      var l := LStrip(s);
      CollapseSingleSpaced(l);
      if l != [] {
        CollapseFirst(l);
      }
      var r := Collapse(s);
      assert r == " " + Collapse(l);
      forall i | 0 <= i < |r| && IsSpace(r[i])
        ensures r[i] == ' ' && (i + 1 < |r| ==> !IsSpace(r[i + 1]))
      {
        if i > 0 {
          assert r[i] == Collapse(l)[i - 1];
        }
      }
    } else {
      CollapseSingleSpaced(s[1..]);
      var r := Collapse(s);
      assert r == [s[0]] + Collapse(s[1..]);
      forall i | 0 <= i < |r| && IsSpace(r[i])
        ensures r[i] == ' ' && (i + 1 < |r| ==> !IsSpace(r[i + 1]))
      {
        assert r[i] == Collapse(s[1..])[i - 1];
      }
    }
  }

  lemma {:induction false} CollapseNoGt(s: string)
    requires NoGt(s)
    ensures NoGt(Collapse(s))
    decreases |s|
  {
    if s != [] {
      if IsSpace(s[0]) {
        var l := LStrip(s);
        assert l == s[|s| - |l|..];
        CollapseNoGt(l);
      } else {
        CollapseNoGt(s[1..]);
      }
    }
  }

  lemma CollapseLeadingGt(s: string)
    requires s != [] && s[0] == '>'
    ensures Collapse(s) != [] && Collapse(s)[0] == '>'
  {
    assert !IsSpace('>');
  }

  /** Collapsing whitespace creates no tag. */
  lemma {:induction false} CollapseNoTag(s: string)
    requires NoTag(s)
    ensures NoTag(Collapse(s))
    decreases |s|
  {
    if s == [] {
    } else if IsSpace(s[0]) {
      var l := LStrip(s);
      NoTagSuffix(s, |s| - |l|);
      assert s[|s| - |l|..] == l;
      CollapseNoTag(l);
      assert !TagStart(" " + Collapse(l));
      NoTagCons(' ', Collapse(l));
    } else {
      NoTagSuffix(s, 1);
      CollapseNoTag(s[1..]);
      assert !TagStart(s[0..]) && s[0..] == s;
      var rest := Collapse(s[1..]);
      if |s| >= 2 && s[1] == '>' {
        CollapseLeadingGt(s[1..]);
      }
      if NoGt(s[1..]) {
        CollapseNoGt(s[1..]);
      }
      KeptPrefixNoTag(s, rest);
      NoTagCons(s[0], rest);
    }
  }

  /** A single-spaced string is left as it is. */
  lemma CollapseHead(s: string)
    requires s != [] && SingleSpaced(s)
    ensures Collapse(s) == [s[0]] + Collapse(s[1..])
  {
    if IsSpace(s[0]) {
      var t := s[1..];
      assert t == [] || !IsSpace(t[0]);
      assert LStrip(t) == t;
      assert LStrip(s) == t;
    }
  }

  lemma {:induction false} CollapseIdentity(s: string)
    requires SingleSpaced(s)
    ensures Collapse(s) == s
    decreases |s|
  {
    if s != [] {
      SingleSpacedSlice(s, 1, |s|);
      assert s[1..|s|] == s[1..];
      CollapseHead(s);
      CollapseIdentity(s[1..]);
    }
  }


  /** A slice of a single-spaced string is single-spaced. */
  lemma SingleSpacedSlice(s: string, a: nat, b: nat)
    requires SingleSpaced(s) && a <= b <= |s|
    ensures SingleSpaced(s[a..b])
  {
    var t := s[a..b];
    forall i | 0 <= i < |t| && IsSpace(t[i])
      ensures t[i] == ' ' && (i + 1 < |t| ==> !IsSpace(t[i + 1]))
    {
      assert t[i] == s[a + i];
    }
  }

  /** `Strip` returns a slice of its argument. */
  lemma StripSlice(s: string) returns (a: nat, b: nat)
    ensures a <= b <= |s| && Strip(s) == s[a..b]
  {
    var l := LStrip(s);
    var r := RStrip(l);
    a := |s| - |l|;
    b := a + |r|;
    assert l == s[a..];
    assert r == l[..|r|];
    assert s[a..][..|r|] == s[a..b];
  }

  // ---------------------------------------------------------------------
  // `_clean_text`
  // ---------------------------------------------------------------------

  /** A cleaned text: no tag, no whitespace at either end, and every
      whitespace run a single plain space. */
  ghost predicate Clean(s: string) {
    NoTag(s) && SingleSpaced(s) && (s == [] || (!IsSpace(s[0]) && !IsSpace(s[|s| - 1])))
  }

  function CleanText(s: string): (r: string)
    ensures |r| <= |s|
  {
    if s == "" then "" else Strip(Collapse(StripTags(s)))
  }

  /** Whatever went in, what comes out is clean. */
  lemma StripKeepsNoTag(c: string)
    requires NoTag(c)
    ensures NoTag(Strip(c))
  {
    var a, b := StripSlice(c);
    NoTagSuffix(c, a);
    NoTagPrefix(c[a..], b - a);
    assert c[a..][..b - a] == c[a..b];
  }

  lemma StripKeepsSingleSpaced(c: string)
    requires SingleSpaced(c)
    ensures SingleSpaced(Strip(c))
  {
    var a, b := StripSlice(c);
    SingleSpacedSlice(c, a, b);
  }

  /** Trimming text free of tags and of whitespace runs leaves it clean. */
  lemma StripKeepsClean(c: string)
    requires NoTag(c) && SingleSpaced(c)
    ensures Clean(Strip(c))
  {
    StripKeepsNoTag(c);
    StripKeepsSingleSpaced(c);
  }

  lemma CleanTextIsClean(s: string)
    ensures Clean(CleanText(s))
  {
    if s != "" {
      StripTagsNoTag(s);
      CollapseNoTag(StripTags(s));
      CollapseSingleSpaced(StripTags(s));
      StripKeepsClean(Collapse(StripTags(s)));
    }
  }


  /** Cleaning a clean text changes nothing. */
  lemma CleanTextFixesClean(s: string)
    requires Clean(s)
    ensures CleanText(s) == s
  {
    if s != "" {
      StripTagsIdentity(s);
      CollapseIdentity(s);
      StripTrimmed(s);
    }
  }

  /** Cleaning is idempotent. */
  lemma CleanTextIdempotent(s: string)
    ensures CleanText(CleanText(s)) == CleanText(s)
  {
    CleanTextIsClean(s);
    CleanTextFixesClean(CleanText(s));
  }

  /** A cleaned text holds no line break. */
  lemma CleanHasNoNewline(s: string)
    requires Clean(s)
    ensures forall i :: 0 <= i < |s| ==> s[i] != '\n'
  {
    forall i | 0 <= i < |s|
      ensures s[i] != '\n'
    {
      assert IsSpace('\n');
    }
  }

  // ---------------------------------------------------------------------
  // `fetch_full_siman`
  // ---------------------------------------------------------------------

  /** The seifim as the answer lists them; a lone string counts as one seif. */
  function RawSeifim(he: HeField): seq<string> {
    match he
    case HeMissing => []
    case HeText(t) => [t]
    case HeSeifim(items) => items
  }

  /** Non-empty seifim, cleaned, keeping those that stay non-empty, in order. */
  function CleanSeifim(raw: seq<string>): (r: seq<string>)
    ensures |r| <= |raw|
    ensures forall s :: s in r ==> s != ""
  {
    if raw == [] then []
    else
      var c := if raw[0] == "" then "" else CleanText(raw[0]);
      (if c == "" then [] else [c]) + CleanSeifim(raw[1..])
  }

  /** Every kept seif is clean: no tag and single spaced. */
  lemma {:induction false} CleanSeifimClean(raw: seq<string>)
    ensures forall s :: s in CleanSeifim(raw) ==> Clean(s)
  {
    if raw != [] {
      CleanTextIsClean(raw[0]);
      CleanSeifimClean(raw[1..]);
    }
  }

  /** The texts-API reference of a siman. */
  function SimanReference(volume: Volume, siman: int): string {
    volume.refBase + "." + IntToString(siman)
  }

  /** The web address of a reference: spaces become underscores. */
  function WebLink(reference: string): string {
    WebUrl + "/" + ReplaceChar(reference, ' ', '_')
  }

  /** The Hebrew text of an answer: the cleaned non-empty seifim, one per
      line; `None` when the request failed, no seif has text after cleaning,
      or the joined text is under ten characters. */
  function SimanText(f: Fetched): (t: Option<string>)
    ensures t.Some? ==> |t.value| >= 10
  {
    if f.Unavailable? then None
    else
      var seifim := CleanSeifim(RawSeifim(f.he));
      if seifim == [] then None
      else
        var hebrew := Join("\n", seifim);
        if |hebrew| < 10 then None else Some(hebrew)
  }

  /** An answer yields no text exactly in the three failure cases, and
      otherwise the text splits, line by line, back into the cleaned
      non-empty seifim. */
  lemma SimanTextOutcome(f: Fetched)
    ensures SimanText(f).None? <==>
              f.Unavailable? ||
              CleanSeifim(RawSeifim(f.he)) == [] ||
              |Join("\n", CleanSeifim(RawSeifim(f.he)))| < 10
    ensures SimanText(f).Some? ==>
              SplitOn(SimanText(f).value, '\n') == CleanSeifim(RawSeifim(f.he)) &&
              forall line :: line in SplitOn(SimanText(f).value, '\n') ==> line != "" && Clean(line)
  {
    if f.Body? {
      var seifim := CleanSeifim(RawSeifim(f.he));
      CleanSeifimClean(RawSeifim(f.he));
      if seifim != [] {
        forall p, i | p in seifim && 0 <= i < |p|
          ensures p[i] != '\n'
        {
          CleanHasNoNewline(p);
        }
        SplitJoinRoundTrip(seifim, '\n');
      }
    }
  }

  /** `fetch_full_siman`: the whole siman as one halacha of the volume, with
      the answer's text and a link to the siman's own reference. */
  function FetchFullSiman(getText: string -> Fetched, volume: Volume, siman: int): (r: Option<Halacha>)
    ensures r.Some? <==> SimanText(getText(SimanReference(volume, siman))).Some?
    ensures r.Some? ==>
      r.value.volume == volume && r.value.siman == siman && r.value.seif == None &&
      r.value.hebrewText == SimanText(getText(SimanReference(volume, siman))).value &&
      r.value.sefariaUrl == WebLink(Reference(r.value))
  {
    var reference := SimanReference(volume, siman);
    match SimanText(getText(reference))
    case None => None
    case Some(hebrew) => Some(Halacha(volume, siman, None, hebrew, WebLink(reference)))
  }

  // ---------------------------------------------------------------------
  // Catalog lookup and the random siman
  // ---------------------------------------------------------------------

  /** Position of the first catalog entry with the English name, or the
      catalog's length when there is none. */
  function FindIndex(catalog: seq<Volume>, name: string): (k: nat)
    ensures k <= |catalog|
    ensures forall i :: 0 <= i < k ==> catalog[i].volume != name
    ensures k < |catalog| ==> catalog[k].volume == name
    decreases |catalog|
  {
    if catalog == [] then 0
    else if catalog[0].volume == name then 0
    else 1 + FindIndex(catalog[1..], name)
  }

  /** The first catalog entry with the English name, if any. */
  function FindVolume(catalog: seq<Volume>, name: string): (r: Option<Volume>)
    ensures r.None? <==> forall i :: 0 <= i < |catalog| ==> catalog[i].volume != name
    ensures r.Some? ==> exists k :: 0 <= k < |catalog| && catalog[k] == r.value && r.value.volume == name &&
                                    forall i :: 0 <= i < k ==> catalog[i].volume != name
  {
    var k := FindIndex(catalog, name);
    if k < |catalog| then Some(catalog[k]) else None
  }

  /** The siman the `k`-th draw from `g` names. */
  function DrawnSiman(g: Rng, k: nat, maxSiman: int): (siman: int)
    requires maxSiman >= 1
    ensures 1 <= siman <= maxSiman
  {
    RandInt(Rng(g.draws, g.used + k), 1, maxSiman).0
  }

  lemma DrawnSimanShift(g: Rng, maxSiman: int, k: nat)
    requires maxSiman >= 1
    ensures DrawnSiman(Rng(g.draws, g.used + 1), k, maxSiman) == DrawnSiman(g, k + 1, maxSiman)
  {
  }

  /** Fetching one siman of a volume. */
  function FetchOf(getText: string -> Fetched, volume: Volume): int -> Option<Halacha> {
    siman => FetchFullSiman(getText, volume, siman)
  }

  /** `n` attempts at a random siman in `[1, maxSiman]`: the first draw whose
      fetch succeeds, and the generator after the draws taken. */
  function Attempts(fetch: int -> Option<Halacha>, maxSiman: int, g: Rng, n: nat): (r: (Option<Halacha>, Rng))
    requires maxSiman >= 1
    decreases n
  {
    if n == 0 then (None, g)
    else
      var (siman, g1) := RandInt(g, 1, maxSiman);
      var h := fetch(siman);
      if h.Some? then (h, g1) else Attempts(fetch, maxSiman, g1, n - 1)
  }

  /** The attempts take between one and `n` draws, all `n` when none succeeds. */
  lemma {:induction false} AttemptsDraws(fetch: int -> Option<Halacha>, maxSiman: int, g: Rng, n: nat)
    requires maxSiman >= 1
    ensures var r := Attempts(fetch, maxSiman, g, n);
            r.1.draws == g.draws && g.used <= r.1.used <= g.used + n && (n > 0 ==> r.1.used > g.used) &&
            (r.0.None? ==> r.1.used == g.used + n)
    decreases n
  {
    if n > 0 {
      var (siman, g1) := RandInt(g, 1, maxSiman);
      AttemptsDraws(fetch, maxSiman, g1, n - 1);
    }
  }

  /** A found halacha is the fetch of the last draw taken. */
  lemma {:induction false} AttemptsFound(fetch: int -> Option<Halacha>, maxSiman: int, g: Rng, n: nat)
    requires maxSiman >= 1
    ensures var r := Attempts(fetch, maxSiman, g, n);
            r.0.Some? ==> r.1.used > g.used && r.0 == fetch(DrawnSiman(g, r.1.used - g.used - 1, maxSiman))
    decreases n
  {
    if n > 0 {
      var g1 := Rng(g.draws, g.used + 1);
      var siman := DrawnSiman(g, 0, maxSiman);
      assert Rng(g.draws, g.used + 0) == g;
      assert RandInt(g, 1, maxSiman) == (siman, g1);
      if fetch(siman).None? {
        AttemptsFound(fetch, maxSiman, g1, n - 1);
        AttemptsDraws(fetch, maxSiman, g1, n - 1);
        var r := Attempts(fetch, maxSiman, g1, n - 1);
        if r.0.Some? {
          DrawnSimanShift(g, maxSiman, r.1.used - g1.used - 1);
        }
      }
    }
  }

  /** Every draw taken failed to fetch, except the last one when it succeeded. */
  lemma {:induction false} AttemptsEarlierFail(fetch: int -> Option<Halacha>, maxSiman: int, g: Rng, n: nat)
    requires maxSiman >= 1
    ensures var r := Attempts(fetch, maxSiman, g, n);
            forall k :: 0 <= k < r.1.used - g.used - (if r.0.Some? then 1 else 0) ==>
              fetch(DrawnSiman(g, k, maxSiman)).None?
    decreases n
  {
    if n > 0 {
      var g1 := Rng(g.draws, g.used + 1);
      var siman := DrawnSiman(g, 0, maxSiman);
      assert Rng(g.draws, g.used + 0) == g;
      assert RandInt(g, 1, maxSiman) == (siman, g1);
      if fetch(siman).None? {
        AttemptsEarlierFail(fetch, maxSiman, g1, n - 1);
        AttemptsDraws(fetch, maxSiman, g1, n - 1);
        var r := Attempts(fetch, maxSiman, g1, n - 1);
        forall k | 0 <= k < r.1.used - g.used - (if r.0.Some? then 1 else 0)
          ensures fetch(DrawnSiman(g, k, maxSiman)).None?
        {
          if k > 0 {
            DrawnSimanShift(g, maxSiman, k - 1);
          }
        }
      }
    }
  }

  /** `None` exactly when all `n` draws fail to fetch. */
  lemma AttemptsExhausted(fetch: int -> Option<Halacha>, maxSiman: int, g: Rng, n: nat)
    requires maxSiman >= 1
    ensures var r := Attempts(fetch, maxSiman, g, n);
            r.0.None? <==> forall k :: 0 <= k < n ==> fetch(DrawnSiman(g, k, maxSiman)).None?
  {
    AttemptsDraws(fetch, maxSiman, g, n);
    AttemptsEarlierFail(fetch, maxSiman, g, n);
    AttemptsFound(fetch, maxSiman, g, n);
  }

  /** When every successful fetch is the whole siman asked for in one
      volume, so is the attempts' result. */
  lemma AttemptsKeepVolume(fetch: int -> Option<Halacha>, maxSiman: int, g: Rng, n: nat, volume: Volume)
    requires maxSiman >= 1
    requires forall siman :: fetch(siman).Some? ==>
               fetch(siman).value.volume == volume && fetch(siman).value.siman == siman && fetch(siman).value.seif == None
    ensures var r := Attempts(fetch, maxSiman, g, n);
            r.0.Some? ==> r.0.value.volume == volume && 1 <= r.0.value.siman <= maxSiman && r.0.value.seif == None
  {
    AttemptsFound(fetch, maxSiman, g, n);
  }

  /** A random halacha of a volume is a whole siman of that volume, numbered
      within `[1, maxSiman]`. */
  lemma RandomHalachaInVolume(getText: string -> Fetched, volume: Volume, g: Rng, n: nat)
    requires volume.maxSiman >= 1
    ensures var r := Attempts(FetchOf(getText, volume), volume.maxSiman, g, n);
            r.0.Some? ==> r.0.value.volume == volume && 1 <= r.0.value.siman <= volume.maxSiman &&
                          r.0.value.seif == None
  {
    var fetch := FetchOf(getText, volume);
    forall siman
      ensures fetch(siman).Some? ==>
                fetch(siman).value.volume == volume && fetch(siman).value.siman == siman && fetch(siman).value.seif == None
    {
      assert fetch(siman) == FetchFullSiman(getText, volume, siman);
    }
    AttemptsKeepVolume(fetch, volume.maxSiman, g, n, volume);
  }

  /** The client. The answer to a texts-API request and the catalog file are
      fixed for the client's lifetime. */
  class SefariaClient {
    const getText: string -> Fetched
    const catalogFile: Option<seq<Volume>>   // `None`: data/volumes.json does not exist
    var catalogCache: Option<seq<Volume>>
    ghost var catalogLoads: nat

    /** The catalog is read from disk at most once, and the cache holds what was read. */
    ghost predicate Valid()
      reads this
    {
      catalogLoads <= 1 &&
      (catalogCache.Some? <==> catalogLoads == 1) &&
      (catalogCache.Some? ==> catalogFile.Some? && catalogCache.value == catalogFile.value)
    }

    constructor (getText: string -> Fetched, catalogFile: Option<seq<Volume>>)
      ensures Valid()
      ensures this.getText == getText && this.catalogFile == catalogFile
      ensures catalogCache == None
    {
      this.getText := getText;
      this.catalogFile := catalogFile;
      catalogCache := None;
      catalogLoads := 0;
    }

    /** The `catalog` property: the cached list, loading it on first use; a
        missing file is `FileNotFoundError` and leaves nothing cached. */
    method Catalog() returns (r: Result<seq<Volume>, string>)
      requires Valid()
      modifies this
      ensures Valid()
      ensures r == (if catalogFile.Some? then Ok(catalogFile.value) else Err("FileNotFoundError"))
      ensures catalogFile.Some? ==> catalogCache == catalogFile
      ensures old(catalogCache).Some? ==> catalogCache == old(catalogCache) && catalogLoads == old(catalogLoads)
      ensures catalogFile.None? ==> catalogCache == old(catalogCache) && catalogLoads == old(catalogLoads)
      ensures old(catalogCache).None? && catalogFile.Some? ==> catalogLoads == old(catalogLoads) + 1
    {
      if catalogCache.None? {
        if catalogFile.None? {
          return Err("FileNotFoundError");
        }
        catalogCache := catalogFile;
        catalogLoads := catalogLoads + 1;
      }
      return Ok(catalogCache.value);
    }

    /** `get_volume`: a linear search of the catalog by English name. */
    method GetVolume(name: string) returns (r: Result<Option<Volume>, string>)
      requires Valid()
      modifies this
      ensures Valid()
      ensures r == (if catalogFile.Some? then Ok(FindVolume(catalogFile.value, name)) else Err("FileNotFoundError"))
      ensures catalogFile.Some? ==> catalogCache == catalogFile
      ensures old(catalogCache).Some? ==> catalogCache == old(catalogCache) && catalogLoads == old(catalogLoads)
      ensures catalogFile.None? ==> catalogCache == old(catalogCache) && catalogLoads == old(catalogLoads)
      ensures old(catalogCache).None? && catalogFile.Some? ==> catalogLoads == old(catalogLoads) + 1
    {
      var catalog := Catalog();
      if catalog.Err? {
        return Err(catalog.error);
      }
      var volumes := catalog.value;
      var i := 0;
      while i < |volumes|
        invariant 0 <= i <= |volumes|
        invariant forall j :: 0 <= j < i ==> volumes[j].volume != name
      {
        if volumes[i].volume == name {
          return Ok(Some(volumes[i]));
        }
        i := i + 1;
      }
      return Ok(None);
    }

    /** `get_random_halacha_from_volume`: up to ten draws of a siman in
        `[1, maxSiman]`, returning the first that fetches. */
    method GetRandomHalacha(volume: Volume, g: Rng) returns (h: Option<Halacha>, g': Rng)
      requires volume.maxSiman >= 1
      ensures (h, g') == Attempts(FetchOf(getText, volume), volume.maxSiman, g, MaxAttempts)
    {
      g' := g;
      var attempt := 0;
      while attempt < MaxAttempts
        invariant 0 <= attempt <= MaxAttempts
        invariant Attempts(FetchOf(getText, volume), volume.maxSiman, g', MaxAttempts - attempt) ==
                  Attempts(FetchOf(getText, volume), volume.maxSiman, g, MaxAttempts)
      {
        var siman;
        siman, g' := RandInt(g', 1, volume.maxSiman).0, RandInt(g', 1, volume.maxSiman).1;
        h := FetchFullSiman(getText, volume, siman);
        if h.Some? {
          return;
        }
        attempt := attempt + 1;
      }
      h := None;
    }
  }
}
