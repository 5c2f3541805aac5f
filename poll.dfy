/**
 * The polling script: one run reads the last handled update id, asks
 * Telegram for the updates after it, answers every command among them and
 * records the largest update id seen.
 */
module Poll {
  import opened Wrappers
  import opened Text
  import opened Dates
  import opened Models
  import opened Formatter
  import opened Selector
  import opened Commands
  import opened Subscribers

  // ---------------------------------------------------------------------
  // The offset state file
  // ---------------------------------------------------------------------

  /** The JSON value stored under `last_update_id`. `IdText` holds what
      `int()` makes of a string: `None` when it raises `ValueError`. */
  datatype IdValue = IdInt(n: int) | IdText(parsed: Option<int>) | IdNull | IdOther

  /** The state file: missing, not JSON, JSON whose top level is not an
      object, or an object with or without the `last_update_id` key. */
  datatype OffsetFile = Missing | Undecodable | NotObject | Object(lastUpdateId: Option<IdValue>)

  /** `load_state`: the last handled update id, 0 when the file is missing,
      is not JSON, lacks the key or holds a string `int()` rejects; `None`
      where the function raises (a top level that is not an object, an id
      that is null or neither a number nor a string). */
  function LoadState(f: OffsetFile): (r: Option<int>)
    ensures f.Missing? || f.Undecodable? || f == Object(None) ==> r == Some(0)
    ensures f.Object? && f.lastUpdateId.Some? && f.lastUpdateId.value.IdText? ==>
              r == Some(if f.lastUpdateId.value.parsed.Some? then f.lastUpdateId.value.parsed.value else 0)
    ensures r.None? <==> f.NotObject? || f == Object(Some(IdNull)) || f == Object(Some(IdOther))
  {
    match f
    case Missing => Some(0)
    case Undecodable => Some(0)
    case NotObject => None
    case Object(None) => Some(0)
    case Object(Some(v)) =>
      match v
      case IdInt(n) => Some(n)
      case IdText(p) => Some(if p.Some? then p.value else 0)
      case IdNull => None
      case IdOther => None
  }

  /** `save_state`: the id written under `last_update_id`. */
  function SavedState(n: int): OffsetFile {
    Object(Some(IdInt(n)))
  }

  /** Loading a saved state gives back the id. */
  lemma StateRoundTrip(n: int)
    ensures LoadState(SavedState(n)) == Some(n)
  {
  }

  // ---------------------------------------------------------------------
  // The command token
  // ---------------------------------------------------------------------

  /** Lower-casing of one character, for the ASCII letters. */
  function LowerChar(c: char): char {
    if 'A' <= c <= 'Z' then (c as int + 32) as char else c
  }

  predicate IsUpper(c: char) {
    'A' <= c <= 'Z'
  }

  /** `str.lower()` on the ASCII letters. */
  function Lower(s: string): (r: string)
    ensures |r| == |s|
    ensures forall i :: 0 <= i < |s| ==> r[i] == LowerChar(s[i])
    ensures forall i :: 0 <= i < |r| ==> !IsUpper(r[i])
  {
    seq(|s|, i requires 0 <= i < |s| => LowerChar(s[i]))
  }

  lemma LowerNoUpper(s: string)
    requires forall i :: 0 <= i < |s| ==> !IsUpper(s[i])
    ensures Lower(s) == s
  {
  }

  /** `text.split()[0].split("@")[0].lower()`, applied to a stripped text
      that starts with `/`. */
  function CommandToken(text: string): (command: string)
    requires StartsWith(text, "/")
    ensures |command| >= 1 && command[0] == '/'
    ensures NoSpace(command)
    ensures forall i :: 0 <= i < |command| ==> command[i] != '@' && !IsUpper(command[i])
  {
    CommandTokenParts(text);
    Lower(SplitOn(Words(text)[0], '@')[0])
  }

  /** The first word of the text, cut before its first `@`, is a prefix of
      the text. */
  lemma CommandTokenParts(text: string)
    requires StartsWith(text, "/")
    ensures Words(text) != []
    ensures var w := Words(text)[0];
            w == text[..WordEnd(text)] && SplitOn(w, '@')[0] == w[..IndexOf(w, '@')] &&
            IndexOf(w, '@') >= 1 && text[0] == '/'
  {
    assert text[..1] == "/";
    WordsNonEmpty(text);
    var w := Words(text)[0];
    assert w == text[..WordEnd(text)];
    assert w[0] == '/';
  }

  /** What the token is, independently of how it is computed: the
      lower-cased longest prefix of the text without whitespace or `@`. */
  lemma CommandTokenSpec(text: string)
    requires StartsWith(text, "/")
    ensures var command := CommandToken(text);
            var n := |command|;
            n <= |text| && command == Lower(text[..n]) &&
            NoSpace(text[..n]) && (forall i :: 0 <= i < n ==> text[i] != '@') &&
            (n == |text| || IsSpace(text[n]) || text[n] == '@')
  {
    CommandTokenParts(text);
    var w := Words(text)[0];
    TokenPrefix(text, WordEnd(text), w, IndexOf(w, '@'));
  }

  /** The prefix of a text up to its first whitespace, cut before its first
      `@`, is the longest prefix free of both. */
  lemma TokenPrefix(text: string, e: nat, w: string, k: nat)
    requires e <= |text| && w == text[..e] && NoSpace(w) && (e < |text| ==> IsSpace(text[e]))
    requires k <= |w| && (forall i :: 0 <= i < k ==> w[i] != '@') && (k < |w| ==> w[k] == '@')
    ensures text[..k] == w[..k] && NoSpace(text[..k]) && (forall i :: 0 <= i < k ==> text[i] != '@')
    ensures k == |text| || IsSpace(text[k]) || text[k] == '@'
  {
    assert forall i :: 0 <= i < k ==> text[..k][i] == w[i];
  }

  /** Normalising a token changes nothing. */
  lemma CommandTokenIdempotent(text: string)
    requires StartsWith(text, "/")
    ensures var command := CommandToken(text);
            StartsWith(command, "/") && CommandToken(command) == command
  {
    var command := CommandToken(text);
    assert command[..1] == "/";
    WordsOfWord(command);
    IndexOfAbsent(command, '@');
    assert command[..|command|] == command;
    LowerNoUpper(command);
  }

  /** A word followed by a bot name (`/today@SomeBot`), by whitespace and
      more text, or by nothing, gives the word lower-cased. */
  lemma CommandTokenOfWord(w: string, rest: string)
    requires StartsWith(w, "/") && NoSpace(w)
    requires forall i :: 0 <= i < |w| ==> w[i] != '@'
    requires rest == [] || IsSpace(rest[0]) || rest[0] == '@'
    ensures StartsWith(w + rest, "/")
    ensures CommandToken(w + rest) == Lower(w)
  {
    var text := w + rest;
    assert text[..|w|] == w;
    assert text[..1] == w[..1];
    CommandTokenSpec(text);
    var n := |CommandToken(text)|;
    assert text[..n] == w;
  }

  // ---------------------------------------------------------------------
  // Dispatch
  // ---------------------------------------------------------------------

  datatype Action = StartAction | TodayAction | InfoAction | SubscribeAction | UnsubscribeAction | Ignore

  /** The branch of `handle_command` a command takes. */
  function Route(command: string): (a: Action)
    ensures a == InfoAction <==> command == "/info" || command == "/about" || command == "/help"
    ensures a == Ignore <==>
              command !in {"/start", "/today", "/info", "/about", "/help", "/subscribe", "/unsubscribe"}
  {
    if command == "/start" then StartAction
    else if command == "/today" then TodayAction
    else if command == "/info" || command == "/about" || command == "/help" then InfoAction
    else if command == "/subscribe" then SubscribeAction
    else if command == "/unsubscribe" then UnsubscribeAction
    else Ignore
  }

  /** The fixed replies to `/subscribe` and `/unsubscribe`. */
  datatype Notice = AlreadySubscribed | NowSubscribed | NowUnsubscribed | NotSubscribed

  function NoticeText(n: Notice): string {
    match n
    case AlreadySubscribed => "✅ אתה כבר רשום לקבלת הלכות יומיות."
    case NowSubscribed => "✅ נרשמת בהצלחה! תקבל הלכות יומיות כל בוקר."
    case NowUnsubscribed => "✅ הסרת את הרישום. לא תקבל עוד הלכות יומיות.\nאפשר להירשם מחדש עם /subscribe"
    case NotSubscribed => "אתה לא רשום כרגע. להרשמה שלח /subscribe"
  }

  /** What the bot sends: a text, a fixed notice, or the voice messages for a pair. */
  datatype Outgoing =
    | SendText(chatId: ChatId, text: string)
    | SendNotice(chatId: ChatId, notice: Notice)
    | SendVoice(chatId: ChatId, pair: DailyPair)

  function TextsTo(chatId: ChatId, msgs: seq<string>): (out: seq<Outgoing>)
    ensures |out| == |msgs|
    ensures forall i :: 0 <= i < |msgs| ==> out[i] == SendText(chatId, msgs[i])
  {
    seq(|msgs|, i requires 0 <= i < |msgs| => SendText(chatId, msgs[i]))
  }

  /** Everything in `out` goes to the one chat. */
  predicate AllTo(out: seq<Outgoing>, chatId: ChatId) {
    forall i :: 0 <= i < |out| ==> out[i].chatId == chatId
  }

  /** `after` is `before` with messages to the one chat sent after it. */
  predicate SentTo(before: seq<Outgoing>, after: seq<Outgoing>, chatId: ChatId) {
    |after| >= |before| && after[..|before|] == before && AllTo(after[|before|..], chatId)
  }

  /** Texts to a chat, followed by anything else to it, are sent to it. */
  lemma TextsThenSentTo(before: seq<Outgoing>, msgs: seq<string>, extra: seq<Outgoing>, chatId: ChatId)
    requires AllTo(extra, chatId)
    ensures SentTo(before, before + TextsTo(chatId, msgs) + extra, chatId)
  {
    var after := before + TextsTo(chatId, msgs) + extra;
    assert after[..|before|] == before;
    assert after[|before|..] == TextsTo(chatId, msgs) + extra;
  }

  // ---------------------------------------------------------------------
  // The updates
  // ---------------------------------------------------------------------

  datatype IncomingMessage = IncomingMessage(chatId: ChatId, text: Option<string>)
  datatype Update = Update(updateId: int, message: Option<IncomingMessage>)

  /** The command an update carries: its stripped text's token, when the
      text is present, non-empty and starts with `/`. */
  function UpdateCommand(u: Update): Option<(ChatId, string)> {
    if u.message.None? || u.message.value.text.None? || u.message.value.text.value == [] then None
    else
      var text := Strip(u.message.value.text.value);
      if StartsWith(text, "/") then Some((u.message.value.chatId, CommandToken(text))) else None
  }

  /** The commands of a batch of updates, in order. */
  function CommandsOf(ups: seq<Update>): seq<(ChatId, string)> {
    if ups == [] then []
    else
      var init := CommandsOf(ups[..|ups| - 1]);
      match UpdateCommand(ups[|ups| - 1])
      case None => init
      case Some(c) => init + [c]
  }

  lemma CommandsOfStep(ups: seq<Update>, i: int)
    requires 0 <= i < |ups|
    ensures CommandsOf(ups[..i + 1]) ==
              CommandsOf(ups[..i]) + (if UpdateCommand(ups[i]).Some? then [UpdateCommand(ups[i]).value] else [])
  {
    assert ups[..i + 1][..i] == ups[..i];
  }

  lemma HandledStep(h0: seq<(ChatId, string)>, h1: seq<(ChatId, string)>, h2: seq<(ChatId, string)>, ups: seq<Update>, i: int)
    requires 0 <= i < |ups|
    requires h1 == h0 + CommandsOf(ups[..i])
    requires h2 == h1 + (if UpdateCommand(ups[i]).Some? then [UpdateCommand(ups[i]).value] else [])
    ensures h2 == h0 + CommandsOf(ups[..i + 1])
  {
    CommandsOfStep(ups, i);
  }

  /** Every command handled is a normalised token. */
  lemma {:induction false} CommandsOfTokens(ups: seq<Update>)
    ensures forall c :: c in CommandsOf(ups) ==> |c.1| >= 1 && c.1[0] == '/' && NoSpace(c.1)
    ensures |CommandsOf(ups)| <= |ups|
  {
    if ups != [] {
      CommandsOfTokens(ups[..|ups| - 1]);
    }
  }

  /** The subscriber set after one command: `/start` and `/subscribe` add
      the chat, `/unsubscribe` removes it, and the rest leave the set alone. */
  function NextSubs(c: (ChatId, string), subs: set<ChatId>): (r: set<ChatId>)
    ensures forall x :: x != c.0 ==> (x in r <==> x in subs)
  {
    match Route(c.1)
    case StartAction => subs + {c.0}
    case SubscribeAction => subs + {c.0}
    case UnsubscribeAction => subs - {c.0}
    case _ => subs
  }

  /** The subscriber set after a batch's commands, in order. */
  function RunSubs(cmds: seq<(ChatId, string)>, subs: set<ChatId>): set<ChatId> {
    if cmds == [] then subs else NextSubs(cmds[|cmds| - 1], RunSubs(cmds[..|cmds| - 1], subs))
  }

  /** The chats that sent a batch's commands. */
  function Chats(cmds: seq<(ChatId, string)>): set<ChatId> {
    set i | 0 <= i < |cmds| :: cmds[i].0
  }

  /** A batch changes the membership only of the chats that sent it commands. */
  lemma {:induction false} RunSubsOthers(cmds: seq<(ChatId, string)>, subs: set<ChatId>)
    ensures forall x :: x !in Chats(cmds) ==> (x in RunSubs(cmds, subs) <==> x in subs)
  {
    if cmds != [] {
      var init := cmds[..|cmds| - 1];
      RunSubsOthers(init, subs);
      assert cmds[|cmds| - 1].0 in Chats(cmds);
    }
  }

  /** Concatenation regroups; stated once so the step lemma stays small. */
  lemma AppendAssoc(a: seq<Outgoing>, b: seq<Outgoing>, c: seq<Outgoing>)
    ensures a + b + c == a + (b + c)
  {
  }

  /** The largest of `last` and the batch's update ids: what the loop keeps
      in `new_last_update_id`. */
  function MaxId(last: int, ups: seq<Update>): int {
    if ups == [] then last
    else
      var m := MaxId(last, ups[..|ups| - 1]);
      var id := ups[|ups| - 1].updateId;
      if id > m then id else m
  }

  lemma MaxIdStep(last: int, ups: seq<Update>, i: int)
    requires 0 <= i < |ups|
    ensures MaxId(last, ups[..i + 1]) ==
              if ups[i].updateId > MaxId(last, ups[..i]) then ups[i].updateId else MaxId(last, ups[..i])
  {
    assert ups[..i + 1][..i] == ups[..i];
  }

  /** `MaxId` is an upper bound of `last` and every id, and is one of them. */
  lemma {:induction false} MaxIdBounds(last: int, ups: seq<Update>)
    ensures MaxId(last, ups) >= last
    ensures forall i :: 0 <= i < |ups| ==> ups[i].updateId <= MaxId(last, ups)
    ensures MaxId(last, ups) == last || exists i :: 0 <= i < |ups| && ups[i].updateId == MaxId(last, ups)
  {
    if ups != [] {
      var init := ups[..|ups| - 1];
      MaxIdBounds(last, init);
      if MaxId(last, ups) != last && MaxId(last, ups) == MaxId(last, init) {
        var i :| 0 <= i < |init| && init[i].updateId == MaxId(last, init);
        assert ups[i].updateId == MaxId(last, ups);
      }
      forall i | 0 <= i < |ups|
        ensures ups[i].updateId <= MaxId(last, ups)
      {
        if i < |init| {
          assert ups[i] == init[i];
        }
      }
    }
  }

  /** The state is rewritten exactly when some update is newer than the
      loaded id. */
  lemma MaxIdAdvances(last: int, ups: seq<Update>)
    ensures MaxId(last, ups) > last <==> exists i :: 0 <= i < |ups| && ups[i].updateId > last
  {
    MaxIdBounds(last, ups);
  }

  // ---------------------------------------------------------------------
  // The poller
  // ---------------------------------------------------------------------

  /** One run of the script: the stores it reads and writes, Telegram's
      answer to `get_updates` at each offset (after its retries; `None` when
      every attempt failed), and the messages it has sent. */
  class Poller {
    const subscribers: SubscriberStore
    const selector: HalachaSelector
    const texts: StaticMessages
    const ttsEnabled: bool
    const telegram: int -> Option<seq<Update>>
    var stateFile: OffsetFile
    var sent: seq<Outgoing>
    ghost var handled: seq<(ChatId, string)>   // the commands passed to `handle_command`, in order

    ghost predicate Valid()
      reads this, selector, selector.client, texts
    {
      selector.Valid() && selector.Paired() && texts.Valid() && texts.welcome == selector.welcome
    }

    constructor (subscribers: SubscriberStore, selector: HalachaSelector, texts: StaticMessages,
                 ttsEnabled: bool, telegram: int -> Option<seq<Update>>, stateFile: OffsetFile)
      ensures this.subscribers == subscribers && this.selector == selector && this.texts == texts
      ensures this.ttsEnabled == ttsEnabled && this.telegram == telegram && this.stateFile == stateFile
      ensures sent == [] && handled == []
    {
      this.subscribers := subscribers;
      this.selector := selector;
      this.texts := texts;
      this.ttsEnabled := ttsEnabled;
      this.telegram := telegram;
      this.stateFile := stateFile;
      sent := [];
      handled := [];
    }

    /** The `for msg in messages: send_message` loop. */
    method SendAll(chatId: ChatId, msgs: seq<string>)
      modifies this
      ensures sent == old(sent) + TextsTo(chatId, msgs)
      ensures stateFile == old(stateFile) && handled == old(handled)
    {
      var i := 0;
      while i < |msgs|
        invariant 0 <= i <= |msgs|
        invariant sent == old(sent) + TextsTo(chatId, msgs[..i])
        invariant stateFile == old(stateFile) && handled == old(handled)
      {
        sent := sent + [SendText(chatId, msgs[i])];
        i := i + 1;
        assert TextsTo(chatId, msgs[..i]) == TextsTo(chatId, msgs[..i - 1]) + [SendText(chatId, msgs[i - 1])];
      }
      assert msgs[..i] == msgs;
    }

    /** The day's pair, as `get_daily_pair` would return it on the
        selector's caches as they stand. */
    ghost function DayPair(d: Date): (r: Result<DailyPair, SelectError>)
      requires selector.Valid()
      reads selector, selector.client
      ensures Formattable(r)
    {
      selector.PairFrom(selector.memory, selector.store, d)
    }

    /** What `get_cached_messages` would return on the caches as they stand. */
    ghost function DayCache(d: Date): Result<Option<seq<string>>, SelectError>
      requires selector.Valid()
      reads selector, selector.client
    {
      selector.CachedMessagesFrom(selector.messages, selector.memory, selector.store, d)
    }

    /** What `get_start_messages` would return on the caches as they stand. */
    ghost function StartReply(d: Date): seq<string>
      requires selector.Valid()
      reads selector, selector.client
    {
      StartMessages(DayCache(d), DayPair(d), d, texts.welcome, texts.error)
    }

    /** What `get_today_messages` would return on the caches as they stand. */
    ghost function TodayReply(d: Date): seq<string>
      requires selector.Valid()
      reads selector, selector.client
    {
      TodayMessages(DayCache(d), DayPair(d), d, texts.error)
    }

    /** When the day's cache settles for a pair, both replies stay as they were. */
    lemma RepliesSettle(c0: Result<Option<seq<string>>, SelectError>, c1: Result<Option<seq<string>>, SelectError>,
                        pair: Result<DailyPair, SelectError>, d: Date)
      requires texts.welcome == selector.welcome && Formattable(pair)
      requires selector.Settles(c0, c1, pair, d)
      ensures StartMessages(c1, pair, d, texts.welcome, texts.error) == StartMessages(c0, pair, d, texts.welcome, texts.error)
      ensures TodayMessages(c1, pair, d, texts.error) == TodayMessages(c0, pair, d, texts.error)
    {
      SettledReplies(c0, c1, pair, d, texts.welcome, texts.error);
    }

    /** What the voice step sends for a pair lookup: nothing with speech
        disabled, else the pair's voice or, when the lookup raised, the
        error text. */
    function VoiceStep(chatId: ChatId, pair: Result<DailyPair, SelectError>): (out: seq<Outgoing>)
      ensures |out| == (if ttsEnabled then 1 else 0)
      ensures AllTo(out, chatId)
    {
      if !ttsEnabled then []
      else [if pair.Ok? then SendVoice(chatId, pair.value) else SendText(chatId, texts.error)]
    }

    /** What `handle_command` sends for one command, given the subscriber
        set, the `/start` and `/today` replies and the day's pair as they
        stand: everything goes to the chat the command came from. */
    function Reply(c: (ChatId, string), subs: set<ChatId>, start: seq<string>, today: seq<string>,
                   pair: Result<DailyPair, SelectError>): (out: seq<Outgoing>)
      ensures AllTo(out, c.0)
      ensures Route(c.1) !in {StartAction, TodayAction} ==> |out| == if Route(c.1) == Ignore then 0 else 1
    {
      var chatId := c.0;
      match Route(c.1)
      case StartAction => TextsTo(chatId, start) + VoiceStep(chatId, pair)
      case TodayAction => TextsTo(chatId, today) + VoiceStep(chatId, pair)
      case InfoAction => [SendText(chatId, texts.info)]
      case SubscribeAction => [SendNotice(chatId, if chatId in subs then AlreadySubscribed else NowSubscribed)]
      case UnsubscribeAction => [SendNotice(chatId, if chatId in subs then NowUnsubscribed else NotSubscribed)]
      case Ignore => []
    }

    /** What a batch's commands send, in order: each command's `Reply`
        against the subscriber set the earlier commands left. */
    function RunReplies(cmds: seq<(ChatId, string)>, subs: set<ChatId>, start: seq<string>, today: seq<string>,
                        pair: Result<DailyPair, SelectError>): (out: seq<Outgoing>)
      ensures cmds == [] ==> out == []
    {
      if cmds == [] then []
      else
        var init := cmds[..|cmds| - 1];
        RunReplies(init, subs, start, today, pair) + Reply(cmds[|cmds| - 1], RunSubs(init, subs), start, today, pair)
    }

    /** A batch replies only to the chats that sent it commands. */
    lemma {:induction false} RunRepliesChats(cmds: seq<(ChatId, string)>, subs: set<ChatId>, start: seq<string>,
                                             today: seq<string>, pair: Result<DailyPair, SelectError>)
      ensures forall o :: o in RunReplies(cmds, subs, start, today, pair) ==> o.chatId in Chats(cmds)
    {
      if cmds != [] {
        var init := cmds[..|cmds| - 1];
        var last := cmds[|cmds| - 1];
        RunRepliesChats(init, subs, start, today, pair);
        var reply := Reply(last, RunSubs(init, subs), start, today, pair);
        forall o | o in RunReplies(cmds, subs, start, today, pair)
          ensures o.chatId in Chats(cmds)
        {
          if o in reply {
            var k :| 0 <= k < |reply| && reply[k] == o;
            assert last.0 in Chats(cmds);
          } else {
            var k :| 0 <= k < |init| && init[k].0 == o.chatId;
            assert cmds[k].0 == o.chatId;
          }
        }
      }
    }

    /** One more command extends the replies by its own and moves the set on. */
    lemma RunExtend(prev: seq<(ChatId, string)>, c: (ChatId, string), subs0: set<ChatId>, start: seq<string>,
                    today: seq<string>, pair: Result<DailyPair, SelectError>)
      ensures RunReplies(prev + [c], subs0, start, today, pair) ==
                RunReplies(prev, subs0, start, today, pair) + Reply(c, RunSubs(prev, subs0), start, today, pair)
      ensures RunSubs(prev + [c], subs0) == NextSubs(c, RunSubs(prev, subs0))
    {
      assert (prev + [c])[..|prev|] == prev;
    }

    /** One more update of a batch extends the replies and the subscriber
        set by its command's, if it carries one. */
    lemma RunStep(prev: seq<(ChatId, string)>, cmd: Option<(ChatId, string)>, subs0: set<ChatId>, start: seq<string>,
                  today: seq<string>, pair: Result<DailyPair, SelectError>,
                  sent0: seq<Outgoing>, sent1: seq<Outgoing>, sent2: seq<Outgoing>, subs1: set<ChatId>, subs2: set<ChatId>)
      requires sent1 == sent0 + RunReplies(prev, subs0, start, today, pair)
      requires subs1 == RunSubs(prev, subs0)
      requires cmd.Some? ==> sent2 == sent1 + Reply(cmd.value, subs1, start, today, pair) && subs2 == NextSubs(cmd.value, subs1)
      requires cmd.None? ==> sent2 == sent1 && subs2 == subs1
      ensures var cmds := prev + (if cmd.Some? then [cmd.value] else []);
              sent2 == sent0 + RunReplies(cmds, subs0, start, today, pair) && subs2 == RunSubs(cmds, subs0)
    {
      if cmd.Some? {
        RunExtend(prev, cmd.value, subs0, start, today, pair);
        AppendAssoc(sent0, RunReplies(prev, subs0, start, today, pair), Reply(cmd.value, subs1, start, today, pair));
      } else {
        assert prev + [] == prev;
      }
    }

    /** The voice step after `/start` and `/today`: with speech enabled, the
        day's pair is asked for again and voiced; when that raises, the
        error text goes out instead. */
    method Voice(chatId: ChatId, d: Date)
      requires Valid()
      modifies this, selector, selector.client, texts
      ensures Valid()
      ensures stateFile == old(stateFile) && handled == old(handled)
      ensures sent == old(sent) + VoiceStep(chatId, old(DayPair(d)))
      ensures DayPair(d) == old(DayPair(d)) && selector.Settles(old(DayCache(d)), DayCache(d), old(DayPair(d)), d)
    {
      if ttsEnabled {
        var p := selector.GetDailyPair(d);
        if p.Ok? {
          sent := sent + [SendVoice(chatId, p.value)];
        } else {
          var error := texts.Error();
          sent := sent + [SendText(chatId, error)];
        }
      }
    }

    /** `/start`: subscribe the chat, send the start messages, then the voice step. */
    method Start(chatId: ChatId, d: Date)
      requires Valid()
      modifies this, subscribers, selector, selector.client, texts
      ensures Valid()
      ensures stateFile == old(stateFile) && handled == old(handled)
      ensures Load(subscribers.file) == Load(old(subscribers.file)) + {chatId}
      ensures sent == old(sent) + TextsTo(chatId, old(StartReply(d))) + VoiceStep(chatId, old(DayPair(d)))
      ensures SentTo(old(sent), sent, chatId) && |sent| > |old(sent)|
      ensures DayPair(d) == old(DayPair(d)) && selector.Settles(old(DayCache(d)), DayCache(d), old(DayPair(d)), d)
    {
      var _ := subscribers.Add(chatId);
      ghost var c0 := DayCache(d);
      var msgs := GetStartMessages(selector, texts, d);
      SendAll(chatId, msgs);
      ghost var afterTexts := sent;
      ghost var c1 := DayCache(d);
      Voice(chatId, d);
      selector.SettlesTrans(c0, c1, DayCache(d), DayPair(d), d);
      TextsThenSentTo(old(sent), msgs, sent[|afterTexts|..], chatId);
    }

    /** `/today`: send the day's messages, then the voice step. */
    method Today(chatId: ChatId, d: Date)
      requires Valid()
      modifies this, selector, selector.client, texts
      ensures Valid()
      ensures stateFile == old(stateFile) && handled == old(handled)
      ensures sent == old(sent) + TextsTo(chatId, old(TodayReply(d))) + VoiceStep(chatId, old(DayPair(d)))
      ensures SentTo(old(sent), sent, chatId) && |sent| > |old(sent)|
      ensures DayPair(d) == old(DayPair(d)) && selector.Settles(old(DayCache(d)), DayCache(d), old(DayPair(d)), d)
    {
      ghost var c0 := DayCache(d);
      var msgs := GetTodayMessages(selector, texts, d);
      SendAll(chatId, msgs);
      ghost var afterTexts := sent;
      ghost var c1 := DayCache(d);
      Voice(chatId, d);
      selector.SettlesTrans(c0, c1, DayCache(d), DayPair(d), d);
      TextsThenSentTo(old(sent), msgs, sent[|afterTexts|..], chatId);
    }

    /** `/subscribe`: add the chat unless it is already subscribed, and say which. */
    method Subscribe(chatId: ChatId)
      modifies this, subscribers
      ensures stateFile == old(stateFile) && handled == old(handled)
      ensures Load(subscribers.file) == Load(old(subscribers.file)) + {chatId}
      ensures chatId in Load(old(subscribers.file)) ==> subscribers.file == old(subscribers.file)
      ensures sent == old(sent) +
                [SendNotice(chatId, if chatId in Load(old(subscribers.file)) then AlreadySubscribed else NowSubscribed)]
    {
      var already := subscribers.IsSubscribed(chatId);
      if already {
        sent := sent + [SendNotice(chatId, AlreadySubscribed)];
      } else {
        var _ := subscribers.Add(chatId);
        sent := sent + [SendNotice(chatId, NowSubscribed)];
      }
    }

    /** `/unsubscribe`: remove the chat, with a reply chosen by whether it was subscribed. */
    method Unsubscribe(chatId: ChatId)
      modifies this, subscribers
      ensures stateFile == old(stateFile) && handled == old(handled)
      ensures Load(subscribers.file) == Load(old(subscribers.file)) - {chatId}
      ensures sent == old(sent) +
                [SendNotice(chatId, if chatId in Load(old(subscribers.file)) then NowUnsubscribed else NotSubscribed)]
    {
      var removed := subscribers.Remove(chatId);
      sent := sent + [SendNotice(chatId, if removed then NowUnsubscribed else NotSubscribed)];
    }

    /** `handle_command`: every reply goes to the chat the command came
        from, it is the command's `Reply` to the state before the call, and
        only `/start`, `/subscribe` and `/unsubscribe` touch the subscriber
        list. The day's pair stays as it was. */
    method HandleCommand(chatId: ChatId, command: string, d: Date)
      requires Valid()
      modifies this, subscribers, selector, selector.client, texts
      ensures Valid()
      ensures stateFile == old(stateFile)
      ensures handled == old(handled) + [(chatId, command)]
      ensures sent == old(sent) + Reply((chatId, command), Load(old(subscribers.file)), old(StartReply(d)),
                                        old(TodayReply(d)), old(DayPair(d)))
      ensures SentTo(old(sent), sent, chatId)
      ensures Route(command) in {StartAction, TodayAction} ==> |sent| > |old(sent)|
      ensures Load(subscribers.file) == NextSubs((chatId, command), Load(old(subscribers.file)))
      ensures Route(command) in {TodayAction, InfoAction, Ignore} ==> subscribers.file == old(subscribers.file)
      ensures Route(command) == SubscribeAction && chatId in Load(old(subscribers.file)) ==>
                subscribers.file == old(subscribers.file)
      ensures DayPair(d) == old(DayPair(d)) && selector.Settles(old(DayCache(d)), DayCache(d), old(DayPair(d)), d)
    {
      handled := handled + [(chatId, command)];
      if Route(command) in {StartAction, TodayAction} {
        DailyCommand(chatId, command, d);
      } else {
        OtherCommand(chatId, command);
      }
    }

    /** The `/start` and `/today` branches of `handle_command`. */
    method DailyCommand(chatId: ChatId, command: string, d: Date)
      requires Valid() && Route(command) in {StartAction, TodayAction}
      modifies this, subscribers, selector, selector.client, texts
      ensures Valid()
      ensures stateFile == old(stateFile) && handled == old(handled)
      ensures sent == old(sent) + Reply((chatId, command), Load(old(subscribers.file)), old(StartReply(d)),
                                        old(TodayReply(d)), old(DayPair(d)))
      ensures |sent| > |old(sent)|
      ensures Load(subscribers.file) == NextSubs((chatId, command), Load(old(subscribers.file)))
      ensures Route(command) == TodayAction ==> subscribers.file == old(subscribers.file)
      ensures DayPair(d) == old(DayPair(d)) && selector.Settles(old(DayCache(d)), DayCache(d), old(DayPair(d)), d)
    {
      ghost var subs0, start0, today0, pair0 := Load(subscribers.file), StartReply(d), TodayReply(d), DayPair(d);
      if Route(command) == StartAction {
        Start(chatId, d);
        assert Reply((chatId, command), subs0, start0, today0, pair0) == TextsTo(chatId, start0) + VoiceStep(chatId, pair0);
      } else {
        Today(chatId, d);
        assert Reply((chatId, command), subs0, start0, today0, pair0) == TextsTo(chatId, today0) + VoiceStep(chatId, pair0);
      }
    }

    /** The branches of `handle_command` that do not read the day's pair. */
    method OtherCommand(chatId: ChatId, command: string)
      requires texts.Valid() && Route(command) !in {StartAction, TodayAction}
      modifies this, subscribers, texts
      ensures texts.Valid()
      ensures stateFile == old(stateFile) && handled == old(handled)
      ensures forall start, today, pair :: sent == old(sent) + Reply((chatId, command), Load(old(subscribers.file)), start, today, pair)
      ensures Load(subscribers.file) == NextSubs((chatId, command), Load(old(subscribers.file)))
      ensures Route(command) in {InfoAction, Ignore} ==> subscribers.file == old(subscribers.file)
      ensures Route(command) == SubscribeAction && chatId in Load(old(subscribers.file)) ==>
                subscribers.file == old(subscribers.file)
    {
      match Route(command)
      case InfoAction =>
        var info := texts.Info();
        sent := sent + [SendText(chatId, info)];
      case SubscribeAction =>
        Subscribe(chatId);
      case UnsubscribeAction =>
        Unsubscribe(chatId);
      case Ignore =>
    }

    /** One update of the loop: its command, if it carries one, is handled;
        an update without one changes nothing. */
    method HandleUpdate(u: Update, d: Date)
      requires Valid()
      modifies this, subscribers, selector, selector.client, texts
      ensures Valid()
      ensures stateFile == old(stateFile)
      ensures handled == old(handled) + (if UpdateCommand(u).Some? then [UpdateCommand(u).value] else [])
      ensures UpdateCommand(u).Some? ==>
                sent == old(sent) + Reply(UpdateCommand(u).value, Load(old(subscribers.file)), old(StartReply(d)),
                                          old(TodayReply(d)), old(DayPair(d))) &&
                Load(subscribers.file) == NextSubs(UpdateCommand(u).value, Load(old(subscribers.file)))
      ensures UpdateCommand(u).None? ==> sent == old(sent) && subscribers.file == old(subscribers.file)
      ensures DayPair(d) == old(DayPair(d)) && selector.Settles(old(DayCache(d)), DayCache(d), old(DayPair(d)), d)
    {
      var command := UpdateCommand(u);
      if command.Some? {
        HandleCommand(command.value.0, command.value.1, d);
      }
    }

    /** Part way through a batch that started with `sent0`, the subscriber
        set `subs0` and the day's cache `cache0` and pair `pair0`: what went
        out so far is the replies to `cmds`, the subscriber list is where
        `cmds` took it, and the day's cache has only settled. */
    ghost predicate RunFrom(sent0: seq<Outgoing>, subs0: set<ChatId>, cache0: Result<Option<seq<string>>, SelectError>,
                            pair0: Result<DailyPair, SelectError>, cmds: seq<(ChatId, string)>, d: Date)
      requires selector.Valid()
      reads this, subscribers, selector, selector.client
    {
      DayPair(d) == pair0 && selector.Settles(cache0, DayCache(d), pair0, d) &&
      sent == sent0 + RunReplies(cmds, subs0, StartMessages(cache0, pair0, d, texts.welcome, texts.error),
                                 TodayMessages(cache0, pair0, d, texts.error), pair0) &&
      Load(subscribers.file) == RunSubs(cmds, subs0)
    }

    /** `HandleUpdate` inside a batch: the run grows by the update's command. */
    method HandleInRun(u: Update, d: Date, ghost sent0: seq<Outgoing>, ghost subs0: set<ChatId>,
                       ghost cache0: Result<Option<seq<string>>, SelectError>, ghost pair0: Result<DailyPair, SelectError>,
                       ghost prev: seq<(ChatId, string)>)
      requires Valid() && RunFrom(sent0, subs0, cache0, pair0, prev, d)
      modifies this, subscribers, selector, selector.client, texts
      ensures Valid()
      ensures RunFrom(sent0, subs0, cache0, pair0, prev + (if UpdateCommand(u).Some? then [UpdateCommand(u).value] else []), d)
      ensures stateFile == old(stateFile)
      ensures handled == old(handled) + (if UpdateCommand(u).Some? then [UpdateCommand(u).value] else [])
    {
      ghost var cache1, sent1, subs1 := DayCache(d), sent, Load(subscribers.file);
      RepliesSettle(cache0, cache1, pair0, d);
      HandleUpdate(u, d);
      selector.SettlesTrans(cache0, cache1, DayCache(d), pair0, d);
      RunStep(prev, UpdateCommand(u), subs0, StartMessages(cache0, pair0, d, texts.welcome, texts.error),
              TodayMessages(cache0, pair0, d, texts.error), pair0, sent0, sent1, sent, subs1, Load(subscribers.file));
    }

    /** The update loop: every update moves `new_last_update_id` up, every
        command among them is handled in order, what goes out is the batch's
        `RunReplies` and the subscriber list ends as its `RunSubs`, both from
        the state before the loop, and the state is saved at the end only
        when the id advanced. */
    method ProcessUpdates(last: int, ups: seq<Update>, d: Date)
      requires Valid()
      modifies this, subscribers, selector, selector.client, texts
      ensures Valid()
      ensures handled == old(handled) + CommandsOf(ups)
      ensures stateFile == (if MaxId(last, ups) > last then SavedState(MaxId(last, ups)) else old(stateFile))
      ensures sent == old(sent) + RunReplies(CommandsOf(ups), Load(old(subscribers.file)), old(StartReply(d)),
                                             old(TodayReply(d)), old(DayPair(d)))
      ensures Load(subscribers.file) == RunSubs(CommandsOf(ups), Load(old(subscribers.file)))
      ensures DayPair(d) == old(DayPair(d)) && selector.Settles(old(DayCache(d)), DayCache(d), old(DayPair(d)), d)
    {
      ghost var subs0, pair0, cache0 := Load(subscribers.file), DayPair(d), DayCache(d);
      var newLast := last;
      var i := 0;
      while i < |ups|
        invariant 0 <= i <= |ups|
        invariant Valid()
        invariant newLast == MaxId(last, ups[..i])
        invariant handled == old(handled) + CommandsOf(ups[..i])
        invariant stateFile == old(stateFile)
        invariant RunFrom(old(sent), subs0, cache0, pair0, CommandsOf(ups[..i]), d)
      {
        var u := ups[i];
        MaxIdStep(last, ups, i);
        newLast := if u.updateId > newLast then u.updateId else newLast;
        ghost var handled1 := handled;
        HandleInRun(u, d, old(sent), subs0, cache0, pair0, CommandsOf(ups[..i]));
        HandledStep(old(handled), handled1, handled, ups, i);
        CommandsOfStep(ups, i);
        i := i + 1;
      }
      assert ups[..i] == ups;
      if newLast > last {
        stateFile := SavedState(newLast);
      }
    }

    /** `get_cached_messages` raises for the day: nothing is cached for it
        and its snapshot holds an invalid pair. */
    ghost predicate WarmFails(d: Date)
      reads selector
    {
      DailySeed(d) !in selector.messages && CachedPair(selector.memory, selector.store, d).Err?
    }

    /** The updates Telegram gives after `last`; none when fetching failed. */
    function Batch(last: int): seq<Update> {
      var ups := telegram(last + 1);
      if ups.Some? then ups.value else []
    }

    /** The pre-warm: `get_cached_messages` for the day, which raises when
        the day's snapshot holds an invalid pair. */
    method Prewarm(d: Date) returns (warmed: bool)
      requires Valid()
      modifies selector
      ensures Valid()
      ensures warmed <==> !old(WarmFails(d))
      ensures DayPair(d) == old(DayPair(d)) && DayCache(d) == old(DayCache(d))
    {
      var warm := selector.GetCachedMessages(d);
      warmed := warm.Ok?;
    }

    /** `poll_and_respond`: pre-warm the message cache, load the state,
        fetch the updates after it and process them. `ok` is false where the
        function raises: the pre-warm fails or the state cannot be loaded. */
    method PollAndRespond(d: Date) returns (ok: bool)
      requires Valid()
      modifies this, subscribers, selector, selector.client, texts
      ensures Valid()
      ensures ok <==> !old(WarmFails(d)) && LoadState(old(stateFile)).Some?
      ensures !ok ==> stateFile == old(stateFile) && handled == old(handled) && sent == old(sent) &&
                      subscribers.file == old(subscribers.file) && DayPair(d) == old(DayPair(d))
      ensures ok ==> var last := LoadState(old(stateFile)).value;
                     handled == old(handled) + CommandsOf(Batch(last)) &&
                     stateFile == (if MaxId(last, Batch(last)) > last
                                   then SavedState(MaxId(last, Batch(last))) else old(stateFile)) &&
                     sent == old(sent) + RunReplies(CommandsOf(Batch(last)), Load(old(subscribers.file)),
                                                    old(StartReply(d)), old(TodayReply(d)), old(DayPair(d))) &&
                     Load(subscribers.file) == RunSubs(CommandsOf(Batch(last)), Load(old(subscribers.file))) &&
                     DayPair(d) == old(DayPair(d)) &&
                     forall o :: o in sent[|old(sent)|..] ==> o.chatId in Chats(CommandsOf(Batch(last)))
    {
      var warmed := Prewarm(d);
      if !warmed {
        return false;
      }
      var last := LoadState(stateFile);
      if last.None? {
        return false;
      }
      Respond(last.value, d);
      ok := true;
    }

    /** The rest of `poll_and_respond` once the state is loaded: fetch the
        updates after `last` and process them; when there are none, nothing
        happens. Every message goes to a chat that sent one of the commands. */
    method Respond(last: int, d: Date)
      requires Valid()
      modifies this, subscribers, selector, selector.client, texts
      ensures Valid()
      ensures handled == old(handled) + CommandsOf(Batch(last))
      ensures stateFile == (if MaxId(last, Batch(last)) > last then SavedState(MaxId(last, Batch(last))) else old(stateFile))
      ensures sent == old(sent) + RunReplies(CommandsOf(Batch(last)), Load(old(subscribers.file)), old(StartReply(d)),
                                             old(TodayReply(d)), old(DayPair(d)))
      ensures Load(subscribers.file) == RunSubs(CommandsOf(Batch(last)), Load(old(subscribers.file)))
      ensures DayPair(d) == old(DayPair(d)) && selector.Settles(old(DayCache(d)), DayCache(d), old(DayPair(d)), d)
      ensures |old(sent)| <= |sent| && forall o :: o in sent[|old(sent)|..] ==> o.chatId in Chats(CommandsOf(Batch(last)))
      ensures Batch(last) == [] ==> sent == old(sent) && subscribers.file == old(subscribers.file)
    {
      var ups := telegram(last + 1);
      if ups.None? || ups.value == [] {
        assert CommandsOf([]) == [] && MaxId(last, []) == last;
        return;
      }
      ProcessUpdates(last, ups.value, d);
      RunRepliesChats(CommandsOf(Batch(last)), Load(old(subscribers.file)), old(StartReply(d)), old(TodayReply(d)),
                      old(DayPair(d)));
    }
  }
}
