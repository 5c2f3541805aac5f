/**
 * The bot's records: a volume of the Shulchan Aruch, one halacha (a full
 * siman, or one seif of it) and the pair of halachot delivered on one day.
 * The records are immutable values; the pair carries its one safety
 * invariant in its type: its two halachot come from volumes with different
 * English names.
 */
module Models {
  import opened Wrappers
  import opened Text
  import opened Decimal

  datatype Volume = Volume(
    volume: string,     // English name: "Orach Chaim", "Yoreh De'ah", ...
    volumeHe: string,   // Hebrew name
    refBase: string,    // reference prefix, e.g. "Shulchan_Arukh,_Orach_Chayim"
    maxSiman: int)      // highest siman number in the volume

  datatype Halacha = Halacha(
    volume: Volume,
    siman: int,
    seif: Option<int>,  // None: the whole siman
    hebrewText: string,
    sefariaUrl: string)

  datatype Pair = Pair(first: Halacha, second: Halacha, dateSeed: string)

  predicate DistinctVolumes(p: Pair) {
    p.first.volume.volume != p.second.volume.volume
  }

  /** A pair that passed the constructor's check; no other pair exists in the model. */
  type DailyPair = p: Pair | DistinctVolumes(p)
    witness Pair(Halacha(Volume("a", "", "", 1), 1, None, "", ""),
                 Halacha(Volume("b", "", "", 1), 1, None, "", ""), "")

  /** The `ValueError` the pair's constructor raises. */
  datatype PairError = SameVolume

  /** Constructs a daily pair: fails exactly when both halachot name the same
      English volume, whatever the other volume fields hold. */
  function NewDailyPair(first: Halacha, second: Halacha, dateSeed: string): (r: Result<DailyPair, PairError>)
    ensures r.Err? <==> first.volume.volume == second.volume.volume
    ensures r.Ok? ==> r.value.first == first && r.value.second == second && r.value.dateSeed == dateSeed
  {
    var p := Pair(first, second, dateSeed);
    if DistinctVolumes(p) then Ok(p) else Err(SameVolume)
  }

  /** Two halachot whose volume records differ only outside the English
      name still cannot be paired. */
  lemma SameNameRejected(first: Halacha, second: Halacha, seed: string)
    requires first.volume.volume == second.volume.volume
    ensures NewDailyPair(first, second, seed).Err?
  {
  }

  // ---------------------------------------------------------------------
  // Reference strings
  // ---------------------------------------------------------------------

  /** `Halacha.reference`: the Sefaria reference `<ref_base>.<siman>[.<seif>]`. */
  function Reference(h: Halacha): string {
    match h.seif
    case Some(n) => h.volume.refBase + "." + IntToString(h.siman) + "." + IntToString(n)
    case None => h.volume.refBase + "." + IntToString(h.siman)
  }

  /** Reads `<siman>[.<seif>]` back from a reference with a known prefix. */
  function ParseReference(refBase: string, r: string): Option<(int, Option<int>)> {
    if |r| > |refBase| && r[..|refBase|] == refBase && r[|refBase|] == '.' then
      var tail := r[|refBase| + 1..];
      var dot := IndexOf(tail, '.');
      if dot == |tail| then
        match ParseInt(tail)
        case Some(siman) => Some((siman, None))
        case None => None
      else
        match (ParseInt(tail[..dot]), ParseInt(tail[dot + 1..]))
        case (Some(siman), Some(seif)) => Some((siman, Some(seif)))
        case _ => None
    else None
  }

  lemma IntToStringHasNoDot(n: int)
    ensures forall i :: 0 <= i < |IntToString(n)| ==> IntToString(n)[i] != '.'
  {
  }

  lemma ParseSimanReference(base: string, siman: int)
    ensures ParseReference(base, base + "." + IntToString(siman)) == Some((siman, None))
  {
    var sim := IntToString(siman);
    var r := base + "." + sim;
    IntToStringHasNoDot(siman);
    IntToStringRoundTrip(siman);
    assert r[..|base|] == base && r[|base|] == '.';
    assert r[|base| + 1..] == sim;
    IndexOfAbsent(sim, '.');
  }

  /** The dot after the siman is the first one, so the parts come apart. */
  lemma ParseTwoParts(base: string, sim: string, sf: string)
    requires forall i :: 0 <= i < |sim| ==> sim[i] != '.'
    ensures var r := base + "." + sim + "." + sf;
            var tail := r[|base| + 1..];
            |r| > |base| && r[..|base|] == base && r[|base|] == '.' &&
            IndexOf(tail, '.') == |sim| && tail[..|sim|] == sim && tail[|sim| + 1..] == sf
  {
    var r := base + "." + sim + "." + sf;
    assert r[..|base|] == base && r[|base|] == '.';
    var tail := r[|base| + 1..];
    assert tail == sim + ("." + sf);
    IndexOfAfter(sim, "." + sf, '.');
    assert tail[..|sim|] == sim;
    assert tail[|sim| + 1..] == sf;
  }

  lemma ParseSeifReference(base: string, siman: int, seif: int)
    ensures ParseReference(base, base + "." + IntToString(siman) + "." + IntToString(seif))
      == Some((siman, Some(seif)))
  {
    var sim := IntToString(siman);
    var sf := IntToString(seif);
    IntToStringHasNoDot(siman);
    IntToStringRoundTrip(siman);
    IntToStringRoundTrip(seif);
    ParseTwoParts(base, sim, sf);
  }

  /** The reference names the siman, and the seif exactly when there is one. */
  lemma ReferenceRoundTrip(h: Halacha)
    ensures ParseReference(h.volume.refBase, Reference(h)) == Some((h.siman, h.seif))
  {
    match h.seif
    case None =>
      ParseSimanReference(h.volume.refBase, h.siman);
    case Some(n) =>
      ParseSeifReference(h.volume.refBase, h.siman, n);
  }


  // ---------------------------------------------------------------------
  // Hebrew display reference
  // ---------------------------------------------------------------------

  const ShulchanAruch: string := "שולחן ערוך"
  const SimanWord: string := "סימן"
  const SeifWord: string := "סעיף"

  /** "סימן <n>" */
  function SimanLabel(n: int): string {
    SimanWord + " " + IntToString(n)
  }

  /** "סעיף <n>" */
  function SeifLabel(n: int): string {
    SeifWord + " " + IntToString(n)
  }

  /** `Halacha.hebrew_reference`: "שולחן ערוך, <volume>, סימן <n>[ סעיף <m>]". */
  function HebrewReference(h: Halacha): string {
    var base := ShulchanAruch + ", " + h.volume.volumeHe + ", " + SimanLabel(h.siman);
    match h.seif
    case Some(n) => base + " " + SeifLabel(n)
    case None => base
  }

  lemma ContainsParts(hr: string, he: string, sim: string, tail: string)
    requires hr == ShulchanAruch + ", " + he + ", " + sim + tail
    ensures Contains(hr, ShulchanAruch) && Contains(hr, he) && Contains(hr, sim)
  {
    assert hr == ShulchanAruch + "" + (", " + he + ", " + sim + tail);
    ContainsInfix(hr, "", ShulchanAruch, ", " + he + ", " + sim + tail);
    assert hr == (ShulchanAruch + ", ") + he + (", " + sim + tail);
    ContainsInfix(hr, ShulchanAruch + ", ", he, ", " + sim + tail);
    ContainsInfix(hr, ShulchanAruch + ", " + he + ", ", sim, tail);
  }

  /** The display reference names the work, the volume and the siman. */
  lemma HebrewReferenceNames(h: Halacha)
    ensures Contains(HebrewReference(h), ShulchanAruch)
    ensures Contains(HebrewReference(h), h.volume.volumeHe)
    ensures Contains(HebrewReference(h), SimanLabel(h.siman))
  {
    var he := h.volume.volumeHe;
    var sim := SimanLabel(h.siman);
    match h.seif
    case None =>
      ContainsParts(HebrewReference(h), he, sim, "");
    case Some(n) =>
      ContainsParts(HebrewReference(h), he, sim, " " + SeifLabel(n));
  }

  predicate NoFinalPe(s: string) {
    forall i :: 0 <= i < |s| ==> s[i] != 'ף'
  }

  lemma NoFinalPeConcat(a: string, b: string)
    requires NoFinalPe(a) && NoFinalPe(b)
    ensures NoFinalPe(a + b)
  {
  }

  lemma IntToStringNoFinalPe(n: int)
    ensures NoFinalPe(IntToString(n))
  {
  }

  /** The seif word appears exactly when the halacha is a single seif (given
      that the volume's Hebrew name does not itself spell it: none of the four
      volume names has a final pe). */
  lemma HebrewReferenceSeif(h: Halacha)
    requires NoFinalPe(h.volume.volumeHe)
    ensures Contains(HebrewReference(h), SeifWord) <==> h.seif.Some?
    ensures h.seif.Some? ==> Contains(HebrewReference(h), SeifLabel(h.seif.value))
  {
    var he := h.volume.volumeHe;
    var base := ShulchanAruch + ", " + he + ", " + SimanLabel(h.siman);
    match h.seif
    case None =>
      assert SeifWord[3] == 'ף';
      IntToStringNoFinalPe(h.siman);
      assert NoFinalPe(ShulchanAruch + ", ");
      NoFinalPeConcat(ShulchanAruch + ", ", he);
      assert NoFinalPe(", " + SimanWord + " ");
      NoFinalPeConcat(ShulchanAruch + ", " + he, ", " + SimanWord + " ");
      NoFinalPeConcat(ShulchanAruch + ", " + he + ", " + SimanWord + " ", IntToString(h.siman));
      assert base == ShulchanAruch + ", " + he + ", " + SimanWord + " " + IntToString(h.siman);
      NotContainsMissingChar(base, SeifWord, 3);
    case Some(n) =>
      var sf := SeifLabel(n);
      var hr := base + " " + sf;
      ContainsInfix(hr, base + " ", sf, "");
      assert hr == base + " " + SeifWord + (" " + IntToString(n));
      ContainsInfix(hr, base + " ", SeifWord, " " + IntToString(n));
  }
}
