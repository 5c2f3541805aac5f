/**
 * The replies to `/start` and `/today`, shared by the long-running bot and
 * the polling script. Both try the day's cached messages first and format
 * the day's pair only on a miss; any failure becomes the error text.
 */
module Commands {
  import opened Wrappers
  import opened Dates
  import opened Models
  import opened Formatter
  import opened Selector

  /** A cache lookup that hits: some messages, and at least one. */
  predicate Hit(cached: Result<Option<seq<string>>, SelectError>) {
    cached.Ok? && cached.value.Some? && cached.value.value != []
  }

  /** The pair a lookup may be formatted from. */
  predicate Formattable(pair: Result<DailyPair, SelectError>) {
    pair.Ok? ==> Compact(pair.value.first) && Compact(pair.value.second)
  }

  /** `format_daily_message` on a pair that fits: at least one message per
      halacha, each within Telegram's limit. */
  function DailyReplies(pair: DailyPair, d: Date): (r: seq<string>)
    requires Compact(pair.first) && Compact(pair.second)
    ensures |r| >= 2 && forall m :: m in r ==> |m| <= MaxMessageLength
  {
    CompactDailyFits(pair, d);
    FormatDailySpec(pair, d);
    FormatDaily(pair, d)
  }

  /** `get_start_messages`, given what the message cache and `get_daily_pair`
      gave back: the cached list on a hit; otherwise the welcome followed by
      the day's messages, or by the error text when either lookup failed. */
  function StartMessages(cached: Result<Option<seq<string>>, SelectError>, pair: Result<DailyPair, SelectError>,
                         d: Date, welcome: string, error: string): (r: seq<string>)
    requires Formattable(pair)
    ensures Hit(cached) ==> r == cached.value.value
    ensures !Hit(cached) ==> |r| >= 2 && r[0] == welcome
    ensures !Hit(cached) && (cached.Err? || pair.Err?) ==> r[1..] == [error]
  {
    if cached.Err? then [welcome, error]
    else if Hit(cached) then cached.value.value
    else if pair.Err? then [welcome, error]
    else [welcome] + DailyReplies(pair.value, d)
  }

  /** `get_today_messages`, given the same two lookups: the cached list
      without its welcome when it holds more than the welcome; otherwise the
      day's messages, or the error text alone when either lookup failed. */
  function TodayMessages(cached: Result<Option<seq<string>>, SelectError>, pair: Result<DailyPair, SelectError>,
                         d: Date, error: string): (r: seq<string>)
    requires Formattable(pair)
    ensures |r| >= 1
    ensures cached.Ok? && cached.value.Some? && |cached.value.value| > 1 ==> r == cached.value.value[1..]
    ensures cached.Err? ==> r == [error]
  {
    if cached.Err? then [error]
    else if cached.value.Some? && |cached.value.value| > 1 then cached.value.value[1..]
    else if pair.Err? then [error]
    else DailyReplies(pair.value, d)
  }

  /** `/start` is the welcome followed by `/today`, whenever the cached list
      opens with the welcome and does not hold the welcome alone. */
  lemma StartIsWelcomeThenToday(cached: Result<Option<seq<string>>, SelectError>, pair: Result<DailyPair, SelectError>,
                                d: Date, welcome: string, error: string)
    requires Formattable(pair)
    requires Hit(cached) ==> cached.value.value[0] == welcome && |cached.value.value| != 1
    ensures StartMessages(cached, pair, d, welcome, error) == [welcome] + TodayMessages(cached, pair, d, error)
  {
    if Hit(cached) {
      StartHitIsWelcomeThenToday(cached.value.value, pair, d, welcome, error);
    } else {
      StartMissIsWelcomeThenToday(cached, pair, d, welcome, error);
    }
  }

  lemma StartHitIsWelcomeThenToday(ms: seq<string>, pair: Result<DailyPair, SelectError>,
                                   d: Date, welcome: string, error: string)
    requires Formattable(pair) && |ms| >= 2 && ms[0] == welcome
    ensures StartMessages(Ok(Some(ms)), pair, d, welcome, error) == [welcome] + TodayMessages(Ok(Some(ms)), pair, d, error)
  {
    assert ms == [ms[0]] + ms[1..];
  }

  lemma StartMissIsWelcomeThenToday(cached: Result<Option<seq<string>>, SelectError>, pair: Result<DailyPair, SelectError>,
                                    d: Date, welcome: string, error: string)
    requires Formattable(pair) && !Hit(cached)
    ensures StartMessages(cached, pair, d, welcome, error) == [welcome] + TodayMessages(cached, pair, d, error)
  {
  }

  /** A cached list of the welcome alone is where the two replies part:
      `/start` gives it back, `/today` formats the pair afresh. */
  lemma StartAloneWelcome(pair: Result<DailyPair, SelectError>, d: Date, welcome: string, error: string)
    requires Formattable(pair)
    ensures var cached := Ok(Some([welcome]));
            StartMessages(cached, pair, d, welcome, error) == [welcome] &&
            TodayMessages(cached, pair, d, error) == TodayMessages(Ok(None), pair, d, error)
  {
  }

  /** Freshly formatted replies fit in a Telegram message. */
  lemma FreshRepliesFit(cached: Result<Option<seq<string>>, SelectError>, pair: Result<DailyPair, SelectError>,
                        d: Date, welcome: string, error: string)
    requires Formattable(pair)
    requires cached.Ok? && !Hit(cached) && pair.Ok?
    ensures forall m :: m in TodayMessages(cached, pair, d, error) ==> |m| <= MaxMessageLength
    ensures forall m :: m in StartMessages(cached, pair, d, welcome, error)[1..] ==> |m| <= MaxMessageLength
  {
    assert StartMessages(cached, pair, d, welcome, error)[1..] == DailyReplies(pair.value, d);
  }

  /** Caching the day's messages after a miss does not change either
      reply: the cached list is `[welcome] + format_daily_message(pair)`,
      which is what `/start` sent, and its tail is what `/today` sent. */
  lemma SettledReplies(c0: Result<Option<seq<string>>, SelectError>, c1: Result<Option<seq<string>>, SelectError>,
                       pair: Result<DailyPair, SelectError>, d: Date, welcome: string, error: string)
    requires Formattable(pair)
    requires c1 == c0 || (c0 == Ok(None) && pair.Ok? && c1 == Ok(Some([welcome] + FormatDaily(pair.value, d))))
    ensures StartMessages(c1, pair, d, welcome, error) == StartMessages(c0, pair, d, welcome, error)
    ensures TodayMessages(c1, pair, d, error) == TodayMessages(c0, pair, d, error)
  {
    if c1 != c0 {
      var replies := DailyReplies(pair.value, d);
      assert ([welcome] + replies)[1..] == replies;
    }
  }

  /** `get_start_messages` against a selector: the reply is `StartMessages`
      of what `get_cached_messages` and `get_daily_pair` return on the
      caches as they stood, and the day's pair stays what it was. */
  method GetStartMessages(selector: HalachaSelector, texts: StaticMessages, d: Date) returns (msgs: seq<string>)
    requires selector.Valid() && selector.Paired() && texts.Valid()
    modifies selector, selector.client, texts
    ensures selector.Valid() && selector.Paired() && texts.Valid()
    ensures selector.Settles(selector.CachedMessagesFrom(old(selector.messages), old(selector.memory), old(selector.store), d),
                             selector.CachedMessagesFrom(selector.messages, selector.memory, selector.store, d),
                             selector.PairFrom(old(selector.memory), old(selector.store), d), d)
    ensures msgs == StartMessages(selector.CachedMessagesFrom(old(selector.messages), old(selector.memory), old(selector.store), d),
                                  selector.PairFrom(old(selector.memory), old(selector.store), d),
                                  d, texts.welcome, texts.error)
    ensures selector.PairFrom(selector.memory, selector.store, d) == selector.PairFrom(old(selector.memory), old(selector.store), d)
  {
    var c := selector.GetCachedMessages(d);
    msgs := StartFrom(selector, texts, d, c);
  }

  /** The rest of `get_start_messages` once the message cache answered `c`:
      the cached list on a hit, the error reply when the lookup raised, else
      the miss path. */
  method StartFrom(selector: HalachaSelector, texts: StaticMessages, d: Date,
                   c: Result<Option<seq<string>>, SelectError>) returns (msgs: seq<string>)
    requires selector.Valid() && selector.Paired() && texts.Valid()
    requires c == selector.CachedMessagesFrom(selector.messages, selector.memory, selector.store, d)
    modifies selector, selector.client, texts
    ensures selector.Valid() && selector.Paired() && texts.Valid()
    ensures selector.Settles(c, selector.CachedMessagesFrom(selector.messages, selector.memory, selector.store, d),
                             selector.PairFrom(old(selector.memory), old(selector.store), d), d)
    ensures msgs == StartMessages(c, selector.PairFrom(old(selector.memory), old(selector.store), d),
                                  d, texts.welcome, texts.error)
    ensures selector.PairFrom(selector.memory, selector.store, d) == selector.PairFrom(old(selector.memory), old(selector.store), d)
  {
    if c.Err? {
      var welcome := texts.Welcome();
      var error := texts.Error();
      return [welcome, error];
    }
    if c.value.Some? && c.value.value != [] {
      return c.value.value;
    }
    var welcome := texts.Welcome();
    msgs := FreshStart(selector, texts, d, welcome);
  }

  /** The miss path of `get_start_messages`: the welcome is already made;
      the pair is asked for and formatted, or the error text follows. */
  method FreshStart(selector: HalachaSelector, texts: StaticMessages, d: Date, welcome: string) returns (msgs: seq<string>)
    requires selector.Valid() && selector.Paired() && texts.Valid() && welcome == texts.welcome
    modifies selector, selector.client, texts
    ensures selector.Valid() && selector.Paired() && texts.Valid()
    ensures selector.Settles(selector.CachedMessagesFrom(old(selector.messages), old(selector.memory), old(selector.store), d),
                             selector.CachedMessagesFrom(selector.messages, selector.memory, selector.store, d),
                             selector.PairFrom(old(selector.memory), old(selector.store), d), d)
    ensures msgs == StartMessages(Ok(None), selector.PairFrom(old(selector.memory), old(selector.store), d), d, welcome, texts.error)
    ensures selector.PairFrom(selector.memory, selector.store, d) == selector.PairFrom(old(selector.memory), old(selector.store), d)
  {
    var p := selector.GetDailyPair(d);
    if p.Err? {
      var welcome' := texts.Welcome();
      var error := texts.Error();
      return [welcome', error];
    }
    msgs := [welcome] + DailyReplies(p.value, d);
  }

  /** `get_today_messages` against a selector, in the same way. */
  method GetTodayMessages(selector: HalachaSelector, texts: StaticMessages, d: Date) returns (msgs: seq<string>)
    requires selector.Valid() && selector.Paired() && texts.Valid()
    modifies selector, selector.client, texts
    ensures selector.Valid() && selector.Paired() && texts.Valid()
    ensures selector.Settles(selector.CachedMessagesFrom(old(selector.messages), old(selector.memory), old(selector.store), d),
                             selector.CachedMessagesFrom(selector.messages, selector.memory, selector.store, d),
                             selector.PairFrom(old(selector.memory), old(selector.store), d), d)
    ensures msgs == TodayMessages(selector.CachedMessagesFrom(old(selector.messages), old(selector.memory), old(selector.store), d),
                                  selector.PairFrom(old(selector.memory), old(selector.store), d),
                                  d, texts.error)
    ensures selector.PairFrom(selector.memory, selector.store, d) == selector.PairFrom(old(selector.memory), old(selector.store), d)
  {
    var c := selector.GetCachedMessages(d);
    if c.Err? {
      var error := texts.Error();
      return [error];
    }
    if c.value.Some? && |c.value.value| > 1 {
      return c.value.value[1..];
    }
    msgs := FreshToday(selector, texts, d);
  }

  /** The miss path of `get_today_messages`. */
  method FreshToday(selector: HalachaSelector, texts: StaticMessages, d: Date) returns (msgs: seq<string>)
    requires selector.Valid() && selector.Paired() && texts.Valid()
    modifies selector, selector.client, texts
    ensures selector.Valid() && selector.Paired() && texts.Valid()
    ensures selector.Settles(selector.CachedMessagesFrom(old(selector.messages), old(selector.memory), old(selector.store), d),
                             selector.CachedMessagesFrom(selector.messages, selector.memory, selector.store, d),
                             selector.PairFrom(old(selector.memory), old(selector.store), d), d)
    ensures msgs == TodayMessages(Ok(None), selector.PairFrom(old(selector.memory), old(selector.store), d), d, texts.error)
    ensures selector.PairFrom(selector.memory, selector.store, d) == selector.PairFrom(old(selector.memory), old(selector.store), d)
  {
    var p := selector.GetDailyPair(d);
    if p.Err? {
      var error := texts.Error();
      return [error];
    }
    msgs := DailyReplies(p.value, d);
  }
}
