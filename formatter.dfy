/**
 * Telegram message formatting: splitting a long text at spaces, the
 * messages for one halacha (title, optional dated header, text chunks,
 * link), the day's messages for a pair, and the three fixed texts, each
 * generated once and then served from a cache.
 */
module Formatter {
  import opened Wrappers
  import opened Text
  import opened Decimal
  import opened Dates
  import opened Models

  const MaxMessageLength: int := 4000

  /** Room left in every message beyond the computed parts. */
  const Margin: int := 100

  const BotTitle: string := "<b>📚 שולחן ערוך יומי</b>"

  /** Follows the title on every message after the first. */
  const ContinuedMark: string := " (המשך)\n\n"

  const WelcomeText: string := "<b>📚 שולחן ערוך יומי</b>\n\nברוכים הבאים! כל יום שתי הלכות חדשות מהשולחן ערוך.\n🔊 כולל הקראה קולית בעברית — ניתן להאזין ב-1x, 1.5x או 2x.\n\n✅ נרשמת אוטומטית לקבלת הלכות יומיות.\nלביטול הרשמה: /unsubscribe"

  const InfoText: string := "<b>📚 שולחן ערוך יומי</b>\n\n<b>שולחן ערוך</b> הוא ספר ההלכה המרכזי שחיבר רבי יוסף קארו. הספר מחולק לארבעה חלקים: אורח חיים, יורה דעה, אבן העזר, וחושן משפט.\n\n<b>פקודות:</b>\n/today - הלכות היום + הקראה קולית\n/subscribe - הרשמה להלכות יומיות\n/unsubscribe - ביטול הרשמה\n/info - מידע ועזרה\n\n🔊 כל הלכה מלווה בהקראה קולית בעברית. ניתן להאזין ב-1x, 1.5x או 2x.\n\n📚 <a href=\"https://www.sefaria.org/Shulchan_Arukh\">קרא בספריא</a>\n💻 <a href=\"https://github.com/naorbrown/shulchan-aruch-yomi\">קוד פתוח</a>"

  const ErrorText: string := "לא הצלחתי לטעון את ההלכות. נסה שוב בעוד כמה דקות."

  // ---------------------------------------------------------------------
  // `split_text`
  // ---------------------------------------------------------------------

  /** Python's `s.rfind(" ", 0, end)`: the last space before `end`, or -1. */
  function RFindSpace(s: string, end: nat): (i: int)
    requires end <= |s|
    ensures -1 <= i < end
    ensures i >= 0 ==> s[i] == ' '
    ensures forall j :: i < j < end ==> s[j] != ' '
  {
    if end == 0 then -1
    else if s[end - 1] == ' ' then end - 1
    else RFindSpace(s, end - 1)
  }

  /** Where a text longer than `maxLen` is cut: at the last space among its
      first `maxLen` characters, else after exactly `maxLen` characters. */
  function CutPoint(text: string, maxLen: int): (k: nat)
    requires 1 <= maxLen < |text|
    ensures k <= maxLen
    ensures k < maxLen ==> text[k] == ' '
  {
    var i := RFindSpace(text, maxLen);
    if i == -1 then maxLen else i
  }

  /** The loop of `split_text`: cut, then drop the whitespace at the cut. */
  function SplitChunks(text: string, maxLen: int): (chunks: seq<string>)
    requires maxLen >= 1
    ensures text != [] ==> chunks != []
    decreases |text|
  {
    if text == [] then []
    else if |text| <= maxLen then [text]
    else
      var k := CutPoint(text, maxLen);
      [text[..k]] + SplitChunks(LStrip(text[k..]), maxLen)
  }

  /** `split_text`: a text that fits is one chunk, even when empty. */
  function TextChunks(text: string, maxLen: int): (chunks: seq<string>)
    requires maxLen >= 1
    ensures chunks != []
  {
    if |text| <= maxLen then [text] else SplitChunks(text, maxLen)
  }

  /** One pass of the loop of `split_text` on a text longer than the limit:
      the chunk cut off, and what is left once the whitespace at the cut is
      dropped. */
  method CutOnce(text: string, maxLen: int) returns (chunk: string, rest: string)
    requires 1 <= maxLen < |text|
    ensures [chunk] + SplitChunks(rest, maxLen) == SplitChunks(text, maxLen)
    ensures |rest| < |text|
  {
    var splitAt := RFindSpace(text, maxLen);
    if splitAt == -1 {
      splitAt := maxLen;
    }
    chunk := text[..splitAt];
    rest := LStrip(text[splitAt..]);
  }

  method SplitText(text: string, maxLen: int) returns (chunks: seq<string>)
    requires maxLen >= 1
    ensures chunks == TextChunks(text, maxLen)
  {
    if |text| <= maxLen {
      return [text];
    }
    ghost var total := SplitChunks(text, maxLen);
    chunks := [];
    var rest := text;
    while rest != []
      invariant chunks + SplitChunks(rest, maxLen) == total
      decreases |rest|
    {
      if |rest| <= maxLen {
        SplitChunksLast(chunks, rest, maxLen, total);
        chunks := chunks + [rest];
        break;
      }
      ghost var before := rest;
      var chunk;
      chunk, rest := CutOnce(rest, maxLen);
      AppendChunk(chunks, chunk, SplitChunks(rest, maxLen), SplitChunks(before, maxLen), total);
      chunks := chunks + [chunk];
    }
  }

  /** The chunks still to come, once the next one is taken off. */
  lemma AppendChunk(done: seq<string>, chunk: string, later: seq<string>, todo: seq<string>, total: seq<string>)
    requires done + todo == total && [chunk] + later == todo
    ensures (done + [chunk]) + later == total
  {
    assert (done + [chunk]) + later == done + ([chunk] + later);
  }

  /** The last chunk of the loop of `split_text`. */
  lemma SplitChunksLast(done: seq<string>, rest: string, maxLen: int, total: seq<string>)
    requires 1 <= maxLen && rest != [] && |rest| <= maxLen
    requires done + SplitChunks(rest, maxLen) == total
    ensures done + [rest] == total
  {
  }

  /** No chunk is longer than the limit. */
  lemma {:induction false} SplitChunksBound(text: string, maxLen: int)
    requires maxLen >= 1
    ensures forall c :: c in SplitChunks(text, maxLen) ==> |c| <= maxLen
    decreases |text|
  {
    if text != [] && |text| > maxLen {
      var k := CutPoint(text, maxLen);
      SplitChunksBound(LStrip(text[k..]), maxLen);
    }
  }

  /** Cutting `text` at `k` and dropping only whitespace loses no visible character. */
  lemma CutKeepsContent(text: string, k: nat, tail: string)
    requires k <= |text|
    requires NonSpace(tail) == NonSpace(LStrip(text[k..]))
    ensures NonSpace(text[..k] + tail) == NonSpace(text)
  {
    NonSpaceAppend(text[..k], tail);
    NonSpaceLStrip(text[k..]);
    assert text == text[..k] + text[k..];
    NonSpaceAppend(text[..k], text[k..]);
  }

  /** The chunks hold every visible character of the text, in order: a cut
      only ever drops whitespace. */
  lemma {:induction false} SplitChunksContent(text: string, maxLen: int)
    requires maxLen >= 1
    ensures NonSpace(Concat(SplitChunks(text, maxLen))) == NonSpace(text)
    decreases |text|
  {
    if text == [] {
    } else if |text| <= maxLen {
      ConcatSingle(text);
    } else {
      var k := CutPoint(text, maxLen);
      var rest := LStrip(text[k..]);
      var tail := SplitChunks(rest, maxLen);
      SplitChunksContent(rest, maxLen);
      var chunks := [text[..k]] + tail;
      assert SplitChunks(text, maxLen) == chunks;
      assert chunks[0] == text[..k] && chunks[1..] == tail;
      assert Concat(chunks) == text[..k] + Concat(tail);
      CutKeepsContent(text, k, Concat(tail));
    }
  }

  /** `chunks` are consecutive slices of `text`: each chunk is the text's
      next characters, and between two chunks only the run of whitespace
      that `lstrip` removes is dropped. */
  predicate Slices(text: string, chunks: seq<string>)
    decreases |chunks|
  {
    if chunks == [] then text == []
    else StartsWith(text, chunks[0]) && Slices(LStrip(text[|chunks[0]|..]), chunks[1..])
  }

  /** The loop's chunks are consecutive slices of the text: nothing is
      inserted, moved or dropped except the whitespace at each cut. */
  lemma {:induction false} SplitChunksSlices(text: string, maxLen: int)
    requires maxLen >= 1
    ensures Slices(text, SplitChunks(text, maxLen))
    decreases |text|
  {
    if text == [] {
    } else if |text| <= maxLen {
      WholeSlice(text);
    } else {
      var k := CutPoint(text, maxLen);
      var rest := LStrip(text[k..]);
      SplitChunksSlices(rest, maxLen);
      var chunks := [text[..k]] + SplitChunks(rest, maxLen);
      assert SplitChunks(text, maxLen) == chunks;
      assert chunks[0] == text[..k] && chunks[1..] == SplitChunks(rest, maxLen);
      assert text[|chunks[0]|..] == text[k..];
    }
  }

  /** A text is the one slice of itself. */
  lemma WholeSlice(text: string)
    ensures Slices(text, [text])
  {
    assert text[|text|..] == [];
    assert LStrip([]) == [];
    assert [text][1..] == [];
  }

  /** Chunks of a text that does not begin with a space are never empty. */
  lemma {:induction false} SplitChunksNonEmpty(text: string, maxLen: int)
    requires maxLen >= 1
    requires text == [] || text[0] != ' '
    ensures forall c :: c in SplitChunks(text, maxLen) ==> c != []
    decreases |text|
  {
    if text != [] && |text| > maxLen {
      var k := CutPoint(text, maxLen);
      var rest := LStrip(text[k..]);
      assert rest == [] || rest[0] != ' ';
      SplitChunksNonEmpty(rest, maxLen);
    }
  }

  /** What `split_text` promises: one chunk holding the text when it fits;
      otherwise chunks within the limit that keep every visible character
      in order, none empty when the text does not begin with a space. */
  lemma TextChunksSpec(text: string, maxLen: int)
    requires maxLen >= 1
    ensures |text| <= maxLen ==> TextChunks(text, maxLen) == [text]
    ensures forall c :: c in TextChunks(text, maxLen) ==> |c| <= maxLen || c == text
    ensures NonSpace(Concat(TextChunks(text, maxLen))) == NonSpace(text)
    ensures Slices(text, TextChunks(text, maxLen))
    ensures text != [] && text[0] != ' ' ==> forall c :: c in TextChunks(text, maxLen) ==> c != []
  {
    var chunks := TextChunks(text, maxLen);
    if |text| <= maxLen {
      assert chunks == [text];
      forall c | c in chunks
        ensures |c| <= maxLen && (text != [] ==> c != [])
      {
        assert c == text;
      }
      ConcatSingle(text);
      WholeSlice(text);
    } else {
      SplitChunksBound(text, maxLen);
      SplitChunksContent(text, maxLen);
      SplitChunksSlices(text, maxLen);
      if text[0] != ' ' {
        SplitChunksNonEmpty(text, maxLen);
      }
    }
  }

  /** Every chunk `split_text` returns fits when the limit is at least one. */
  lemma TextChunksBound(text: string, maxLen: int)
    requires maxLen >= 1
    ensures forall c :: c in TextChunks(text, maxLen) ==> |c| <= maxLen
  {
    if |text| > maxLen {
      SplitChunksBound(text, maxLen);
    }
  }

  // ---------------------------------------------------------------------
  // `format_halacha_messages`
  // ---------------------------------------------------------------------

  /** The halacha's letter: א for the first of the day, ב otherwise. */
  function Label(number: int): string {
    if number == 1 then "א" else "ב"
  }

  function Emoji(number: int): string {
    if number == 1 then "📜" else "📖"
  }

  /** "סימן <n>" or "סימן <n> סעיף <m>". */
  function RefDisplay(h: Halacha): string {
    match h.seif
    case Some(n) => SimanLabel(h.siman) + " " + SeifLabel(n)
    case None => SimanLabel(h.siman)
  }

  /** The linked, bold title line. */
  function Title(h: Halacha, number: int): string {
    TitleHead(h, number) + RefDisplay(h) + "</b></a>"
  }

  function TitleHead(h: Halacha, number: int): string {
    Emoji(number) + " <a href=\"" + h.sefariaUrl + "\"><b>" + Label(number) + ". " + h.volume.volumeHe + " — "
  }

  function Link(h: Halacha): string {
    "<a href=\"" + h.sefariaUrl + "\">המשך בספריא →</a>"
  }

  /** The dated banner, only when a date is given. */
  function Header(dateStr: string): string {
    if dateStr != "" then BotTitle + " | " + dateStr + "\n\n" else ""
  }

  function Base(h: Halacha, number: int, dateStr: string): string {
    Header(dateStr) + Title(h, number) + "\n\n"
  }

  function Footer(h: Halacha): string {
    "\n\n" + Link(h)
  }

  /** Characters left for the text in one message. */
  function Available(h: Halacha, number: int, dateStr: string): int {
    MaxMessageLength - |Base(h, number, dateStr)| - |Footer(h)| - Margin
  }

  /** The messages for a text split into `chunks`: the first opens with
      `base`, the others with `cont`; the last closes with `footer`. */
  function Messages(base: string, cont: string, footer: string, chunks: seq<string>): (msgs: seq<string>)
    ensures |msgs| == |chunks|
  {
    seq(|chunks|, i requires 0 <= i < |chunks| =>
      (if i == 0 then base else cont) + chunks[i] + (if i == |chunks| - 1 then footer else ""))
  }

  function HalachaMessages(h: Halacha, number: int, dateStr: string): seq<string>
    requires Available(h, number, dateStr) >= 1
  {
    Messages(Base(h, number, dateStr), Title(h, number) + ContinuedMark, Footer(h),
             TextChunks(h.hebrewText, Available(h, number, dateStr)))
  }

  method FormatHalachaMessages(h: Halacha, number: int, dateStr: string) returns (msgs: seq<string>)
    requires Available(h, number, dateStr) >= 1
    ensures msgs == HalachaMessages(h, number, dateStr)
  {
    var base := Base(h, number, dateStr);
    var cont := Title(h, number) + ContinuedMark;
    var footer := Footer(h);
    var available := MaxMessageLength - |base| - |footer| - Margin;
    assert available == Available(h, number, dateStr);
    var chunks := SplitText(h.hebrewText, available);
    msgs := BuildMessages(base, cont, footer, chunks);
  }

  /** The loop of `format_halacha_messages`. */
  method BuildMessages(base: string, cont: string, footer: string, chunks: seq<string>) returns (msgs: seq<string>)
    ensures msgs == Messages(base, cont, footer, chunks)
  {
    ghost var goal := Messages(base, cont, footer, chunks);
    msgs := [];
    for i := 0 to |chunks|
      invariant |msgs| == i
      invariant forall j :: 0 <= j < i ==> msgs[j] == goal[j]
    {
      var msg := if i == 0 then base + chunks[i] else cont + chunks[i];
      if i == |chunks| - 1 {
        msg := msg + footer;
      }
      msgs := msgs + [msg];
    }
  }

  /** Each message is its opening and its chunk; only the last also
      carries the footer. */
  predicate Framed(msgs: seq<string>, base: string, cont: string, footer: string, chunks: seq<string>) {
    |msgs| == |chunks| >= 1 &&
    (forall i :: 0 <= i < |msgs| - 1 ==> msgs[i] == (if i == 0 then base else cont) + chunks[i]) &&
    msgs[|msgs| - 1] == (if |msgs| == 1 then base else cont) + chunks[|msgs| - 1] + footer
  }

  /** Each message is its opening, its chunk and, on the last, the footer. */
  lemma MessagesShape(base: string, cont: string, footer: string, chunks: seq<string>)
    requires chunks != []
    ensures var msgs := Messages(base, cont, footer, chunks);
            StartsWith(msgs[0], base) &&
            (forall i :: 0 < i < |msgs| ==> StartsWith(msgs[i], cont)) &&
            EndsWith(msgs[|msgs| - 1], footer)
    ensures Framed(Messages(base, cont, footer, chunks), base, cont, footer, chunks)
  {
    var msgs := Messages(base, cont, footer, chunks);
    var last := |chunks| - 1;
    forall i | 0 <= i < |msgs|
      ensures i == 0 ==> StartsWith(msgs[i], base)
      ensures i > 0 ==> StartsWith(msgs[i], cont)
      ensures i == last ==> EndsWith(msgs[i], footer)
    {
      var lead := if i == 0 then base else cont;
      var trail := if i == last then footer else "";
      assert msgs[i] == lead + (chunks[i] + trail);
      StartsEndsWith(lead, chunks[i] + trail);
      assert msgs[i] == (lead + chunks[i]) + trail;
      StartsEndsWith(lead + chunks[i], trail);
    }
  }

  lemma OpeningLengths(h: Halacha, number: int, dateStr: string)
    ensures |Title(h, number) + ContinuedMark| <= |Base(h, number, dateStr)| + 7
  {
    assert |ContinuedMark| == 9;
  }

  /** With chunks of at most `limit` characters, no message is longer than
      its longer opening, `limit` and the footer together. */
  lemma MessagesFit(base: string, cont: string, footer: string, chunks: seq<string>, limit: int)
    requires forall c :: c in chunks ==> |c| <= limit
    ensures forall m :: m in Messages(base, cont, footer, chunks) ==>
              |m| <= (if |base| < |cont| then |cont| else |base|) + limit + |footer|
  {
    var msgs := Messages(base, cont, footer, chunks);
    forall m | m in msgs
      ensures |m| <= (if |base| < |cont| then |cont| else |base|) + limit + |footer|
    {
      var i :| 0 <= i < |msgs| && msgs[i] == m;
      assert chunks[i] in chunks;
    }
  }

  /** Every message of a halacha fits Telegram's limit. */
  lemma HalachaMessagesFit(h: Halacha, number: int, dateStr: string)
    requires Available(h, number, dateStr) >= 1
    ensures forall m :: m in HalachaMessages(h, number, dateStr) ==> |m| <= MaxMessageLength
  {
    var avail := Available(h, number, dateStr);
    var base := Base(h, number, dateStr);
    var cont := Title(h, number) + ContinuedMark;
    var footer := Footer(h);
    var chunks := TextChunks(h.hebrewText, avail);
    TextChunksBound(h.hebrewText, avail);
    OpeningLengths(h, number, dateStr);
    MessagesFit(base, cont, footer, chunks, avail);
  }

  /** The messages around the chunks of any text keep their frame and the
      text's visible characters. */
  lemma ChunkedMessages(base: string, cont: string, footer: string, text: string, maxLen: int)
    requires maxLen >= 1
    ensures var msgs := Messages(base, cont, footer, TextChunks(text, maxLen));
            StartsWith(msgs[0], base) &&
            (forall i :: 0 < i < |msgs| ==> StartsWith(msgs[i], cont)) &&
            EndsWith(msgs[|msgs| - 1], footer)
    ensures Framed(Messages(base, cont, footer, TextChunks(text, maxLen)), base, cont, footer, TextChunks(text, maxLen))
    ensures NonSpace(Concat(TextChunks(text, maxLen))) == NonSpace(text)
    ensures Slices(text, TextChunks(text, maxLen))
  {
    TextChunksSpec(text, maxLen);
    MessagesShape(base, cont, footer, TextChunks(text, maxLen));
  }

  /** The first message opens with the header and title, every later one
      with the title and the continuation mark, and the last ends with the
      link; between them, the chunks carry all of the text's visible
      characters in order. */
  lemma HalachaMessagesFrame(h: Halacha, number: int, dateStr: string)
    requires Available(h, number, dateStr) >= 1
    ensures var msgs := HalachaMessages(h, number, dateStr);
            var chunks := TextChunks(h.hebrewText, Available(h, number, dateStr));
            |msgs| == |chunks| >= 1 &&
            StartsWith(msgs[0], Base(h, number, dateStr)) &&
            (forall i :: 0 < i < |msgs| ==> StartsWith(msgs[i], Title(h, number) + ContinuedMark)) &&
            EndsWith(msgs[|msgs| - 1], Footer(h)) &&
            Framed(msgs, Base(h, number, dateStr), Title(h, number) + ContinuedMark, Footer(h), chunks) &&
            NonSpace(Concat(chunks)) == NonSpace(h.hebrewText) && Slices(h.hebrewText, chunks)
  {
    ChunkedMessages(Base(h, number, dateStr), Title(h, number) + ContinuedMark, Footer(h),
      h.hebrewText, Available(h, number, dateStr));
  }

  // ---------------------------------------------------------------------
  // Facts about the title and header
  // ---------------------------------------------------------------------

  lemma NoFinalPeTitleHead(h: Halacha, number: int)
    requires NoFinalPe(h.sefariaUrl) && NoFinalPe(h.volume.volumeHe)
    ensures NoFinalPe(TitleHead(h, number))
  {
    var e := Emoji(number) + " <a href=\"";
    var m := "\"><b>" + Label(number) + ". ";
    assert NoFinalPe(e) && NoFinalPe(m) && NoFinalPe(" — ");
    NoFinalPeConcat(e, h.sefariaUrl);
    NoFinalPeConcat(e + h.sefariaUrl, m);
    NoFinalPeConcat(e + h.sefariaUrl + m, h.volume.volumeHe);
    NoFinalPeConcat(e + h.sefariaUrl + m + h.volume.volumeHe, " — ");
  }

  /** Without a seif the title holds no final pe at all. */
  lemma TitleWithoutSeif(h: Halacha, number: int)
    requires NoFinalPe(h.sefariaUrl) && NoFinalPe(h.volume.volumeHe)
    requires h.seif.None?
    ensures NoFinalPe(Title(h, number))
  {
    var head := TitleHead(h, number);
    NoFinalPeTitleHead(h, number);
    IntToStringNoFinalPe(h.siman);
    assert NoFinalPe(SimanWord + " ") && NoFinalPe("</b></a>");
    NoFinalPeConcat(SimanWord + " ", IntToString(h.siman));
    NoFinalPeConcat(head, SimanLabel(h.siman));
    NoFinalPeConcat(head + SimanLabel(h.siman), "</b></a>");
  }

  /** A string built as head, middle, `t + " " + n` and tail contains
      `t + " " + n` and `t`. */
  lemma TitleTail(s: string, a: string, m: string, t: string, n: string, b: string)
    requires s == a + (m + " " + (t + " " + n)) + b
    ensures Contains(s, t + " " + n) && Contains(s, t)
  {
    assert t + " " + n == t + (" " + n);
    assert s == (a + (m + " ")) + (t + (" " + n)) + b;
    ContainsInfixHead(s, a + (m + " "), t, " " + n, b);
  }

  /** With a seif the title names it. */
  lemma TitleWithSeif(h: Halacha, number: int)
    requires h.seif.Some?
    ensures Contains(Title(h, number), SeifWord)
    ensures Contains(Title(h, number), SeifLabel(h.seif.value))
  {
    TitleTail(Title(h, number), TitleHead(h, number), SimanLabel(h.siman),
      SeifWord, IntToString(h.seif.value), "</b></a>");
  }

  /** The title spells "סעיף" exactly when the halacha is a single seif, and
      then names it (given that neither the link nor the volume name holds a
      final pe, as none of the four volumes' do). */
  lemma TitleSeif(h: Halacha, number: int)
    requires NoFinalPe(h.sefariaUrl) && NoFinalPe(h.volume.volumeHe)
    ensures Contains(Title(h, number), SeifWord) <==> h.seif.Some?
    ensures h.seif.Some? ==> Contains(Title(h, number), SeifLabel(h.seif.value))
  {
    if h.seif.Some? {
      TitleWithSeif(h, number);
    } else {
      TitleWithoutSeif(h, number);
      assert SeifWord[3] == 'ף';
      NotContainsMissingChar(Title(h, number), SeifWord, 3);
    }
  }

  /** The banner appears exactly when a date is given, and shows that date. */
  lemma HeaderDate(dateStr: string)
    ensures Header(dateStr) == "" <==> dateStr == ""
    ensures dateStr != "" ==> Contains(Header(dateStr), dateStr)
  {
    if dateStr != "" {
      ContainsInfix(Header(dateStr), BotTitle + " | ", dateStr, "\n\n");
    }
  }

  // ---------------------------------------------------------------------
  // `format_daily_message`
  // ---------------------------------------------------------------------

  /** Both halachot leave room for text in their messages. */
  predicate DailyFits(pair: DailyPair, d: Date) {
    Available(pair.first, 1, DisplayDate(d)) >= 1 && Available(pair.second, 2, "") >= 1
  }

  /** The first halacha's messages, dated, then the second's, undated. */
  function FormatDaily(pair: DailyPair, d: Date): seq<string>
    requires DailyFits(pair, d)
  {
    HalachaMessages(pair.first, 1, DisplayDate(d)) + HalachaMessages(pair.second, 2, "")
  }

  /** Two runs of messages, one after the other, keep their openings and
      their bound. */
  lemma JoinMessages(m1: seq<string>, m2: seq<string>, b1: string, b2: string)
    requires |m1| >= 1 && |m2| >= 1
    requires StartsWith(m1[0], b1) && StartsWith(m2[0], b2)
    requires forall m :: m in m1 ==> |m| <= MaxMessageLength
    requires forall m :: m in m2 ==> |m| <= MaxMessageLength
    ensures 1 <= |m1| < |m1 + m2|
    ensures StartsWith((m1 + m2)[0], b1) && StartsWith((m1 + m2)[|m1|], b2)
    ensures forall m :: m in m1 + m2 ==> |m| <= MaxMessageLength
  {
    assert (m1 + m2)[0] == m1[0] && (m1 + m2)[|m1|] == m2[0];
  }

  /** A halacha's run of messages is never empty and opens with its base. */
  lemma HalachaMessagesOpen(h: Halacha, number: int, dateStr: string)
    requires Available(h, number, dateStr) >= 1
    ensures |HalachaMessages(h, number, dateStr)| >= 1
    ensures StartsWith(HalachaMessages(h, number, dateStr)[0], Base(h, number, dateStr))
  {
    HalachaMessagesFrame(h, number, dateStr);
  }

  /** The day's messages: the first halacha's run, then the second's; each
      run opens with its own base, and every message fits. */
  lemma FormatDailySpec(pair: DailyPair, d: Date)
    requires DailyFits(pair, d)
    ensures var msgs := FormatDaily(pair, d);
            var n1 := |HalachaMessages(pair.first, 1, DisplayDate(d))|;
            1 <= n1 < |msgs| &&
            StartsWith(msgs[0], Base(pair.first, 1, DisplayDate(d))) &&
            StartsWith(msgs[n1], Base(pair.second, 2, "")) &&
            forall m :: m in msgs ==> |m| <= MaxMessageLength
  {
    var date := DisplayDate(d);
    HalachaMessagesOpen(pair.first, 1, date);
    HalachaMessagesOpen(pair.second, 2, "");
    HalachaMessagesFit(pair.first, 1, date);
    HalachaMessagesFit(pair.second, 2, "");
    JoinMessages(HalachaMessages(pair.first, 1, date), HalachaMessages(pair.second, 2, ""),
      Base(pair.first, 1, date), Base(pair.second, 2, ""));
  }

  /** A message opening starts with the banner, which is absent without a date. */
  lemma BaseBanner(h: Halacha, number: int, dateStr: string)
    ensures StartsWith(Base(h, number, dateStr), Header(dateStr))
    ensures dateStr == "" ==> Base(h, number, dateStr) == Title(h, number) + "\n\n"
  {
    var rest := Title(h, number) + "\n\n";
    assert Base(h, number, dateStr) == Header(dateStr) + rest;
    StartsEndsWith(Header(dateStr), rest);
  }

  /** Only the first halacha's opening carries the dated banner: it shows
      the date before the title, and the second opens with its title alone. */
  lemma DailyBanner(pair: DailyPair, d: Date)
    ensures StartsWith(Base(pair.first, 1, DisplayDate(d)), Header(DisplayDate(d)))
    ensures Contains(Header(DisplayDate(d)), DisplayDate(d))
    ensures Base(pair.second, 2, "") == Title(pair.second, 2) + "\n\n"
  {
    BaseBanner(pair.first, 1, DisplayDate(d));
    BaseBanner(pair.second, 2, "");
    HeaderDate(DisplayDate(d));
  }

  // ---------------------------------------------------------------------
  // When a halacha leaves room for its text
  // ---------------------------------------------------------------------

  /** The link, the volume's Hebrew name and the siman label are short
      enough that the opening and the footer leave room for text. */
  predicate Compact(h: Halacha) {
    2 * |h.sefariaUrl| + |h.volume.volumeHe| + |RefDisplay(h)| <= 3600
  }

  /** A compact halacha leaves at least one character per message for its
      text, under a banner of up to ten characters of date or none. */
  lemma CompactFits(h: Halacha, number: int, dateStr: string)
    requires Compact(h) && |dateStr| <= 10
    ensures Available(h, number, dateStr) >= 1
  {
    assert |BotTitle| <= 30;
    assert |Header(dateStr)| <= 45;
    assert |Emoji(number)| <= 2 && |Label(number)| == 1;
    assert |TitleHead(h, number)| <= 30 + |h.sefariaUrl| + |h.volume.volumeHe|;
    assert |Link(h)| <= 40 + |h.sefariaUrl|;
  }

  /** A day whose two halachot are compact can be formatted. */
  lemma CompactDailyFits(pair: DailyPair, d: Date)
    requires Compact(pair.first) && Compact(pair.second)
    ensures DailyFits(pair, d)
  {
    CompactFits(pair.first, 1, DisplayDate(d));
    CompactFits(pair.second, 2, "");
  }

  // ---------------------------------------------------------------------
  // The cached fixed texts
  // ---------------------------------------------------------------------

  /** The module-level cache of generated texts. The three generators'
      outputs are held as constants, fixed by the constructor. */
  class StaticMessages {
    const welcome: string
    const info: string
    const error: string
    var cache: map<string, string>
    ghost var generated: seq<string>   // keys whose generator ran, in order

    /** The text each cache key's generator produces. */
    function Generate(key: string): Option<string> {
      if key == "welcome" then Some(welcome)
      else if key == "info" then Some(info)
      else if key == "error" then Some(error)
      else None
    }

    /** Each generator ran at most once, and the cache holds what it made. */
    ghost predicate Valid()
      reads this
    {
      (forall k :: k in cache ==> Generate(k) == Some(cache[k])) &&
      (forall i :: 0 <= i < |generated| ==> generated[i] in cache) &&
      (forall k :: k in cache ==> k in generated) &&
      (forall i, j :: 0 <= i < j < |generated| ==> generated[i] != generated[j])
    }

    constructor ()
      ensures Valid() && cache == map[] && generated == []
      ensures welcome == WelcomeText && info == InfoText && error == ErrorText
    {
      welcome, info, error := WelcomeText, InfoText, ErrorText;
      cache := map[];
      generated := [];
    }

    /** `_get_static_message`: generate on first request, serve from the cache afterwards. */
    method Get(key: string) returns (text: string)
      requires Valid() && Generate(key).Some?
      modifies this
      ensures Valid()
      ensures text == Generate(key).value
      ensures cache == old(cache)[key := text]
      ensures generated == (if key in old(cache) then old(generated) else old(generated) + [key])
    {
      if key !in cache {
        cache := cache[key := Generate(key).value];
        generated := generated + [key];
      }
      text := cache[key];
    }

    /** `format_welcome_message`. */
    method Welcome() returns (text: string)
      requires Valid()
      modifies this
      ensures Valid() && text == welcome
      ensures cache == old(cache)["welcome" := text]
    {
      text := Get("welcome");
    }

    /** `format_info_message`. */
    method Info() returns (text: string)
      requires Valid()
      modifies this
      ensures Valid() && text == info
      ensures cache == old(cache)["info" := text]
    {
      text := Get("info");
    }

    /** `format_error_message`. */
    method Error() returns (text: string)
      requires Valid()
      modifies this
      ensures Valid() && text == error
      ensures cache == old(cache)["error" := text]
    {
      text := Get("error");
    }
  }
}
