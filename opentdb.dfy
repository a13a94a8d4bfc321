/** The Open Trivia DB client of `src/services/opentdb.js`: a request
    spacing guard kept in `localStorage`, the question request with its
    query string, and the category request behind a time-to-live cache.
    The browser is a `Browser` object: the clock that `Date.now()` reads,
    the store, and whether reading and writing the store succeed. The HTTP
    reply, the timer's lateness, the request's duration and the JSON codec
    are parameters. */
module OpenTdb {
  import opened Common
  import opened JsNumber
  import opened JsValue

  const BaseQuestions: string := "https://opentdb.com/api.php"
  const BaseCategories: string := "https://opentdb.com/api_category.php"
  const LastReqKey: string := "quizblitz:opentdb:lastReqAt"
  const CatsCacheKey: string := "quizblitz:opentdb:categories"
  /** The service allows one request per five seconds. */
  const RequestSpacingMs: int := 5000
  const DefaultTtlMs: int := 24 * 60 * 60 * 1000
  const DefaultAmount: int := 10
  /** Timer delays are 32-bit signed integers. */
  const MaxTimerDelay: int := 0x7FFF_FFFF
  /** The largest time value a JavaScript `Date` holds, 8.64 × 10^15 ms
      (section 21.4.1.1 of ECMA-262): `Date.now()` never exceeds it. */
  const MaxTimeValue: nat := 8_640_000_000_000_000

  /** What the service sees of the browser. */
  datatype Env = Env(clock: nat, store: map<string, string>, canRead: bool, canWrite: bool)

  /** `localStorage.getItem(key)`: the stored string, or null. */
  function GetItem(store: map<string, string>, key: string): (r: Value)
    ensures r.Null? <==> key !in store
  {
    if key in store then Str(store[key]) else Null
  }

  /** `Number(localStorage.getItem(LAST_REQ_KEY) || 0)`. */
  function LastRequestAt(store: map<string, string>): JsNum {
    var raw := GetItem(store, LastReqKey);
    ToNumber(if IsTruthy(raw) then raw else Num(FromInt(0)))
  }

  /** `minMs - (now - lastReqTime)`. */
  function WaitMs(minMs: int, now: nat, last: JsNum): JsNum {
    Sub(FromInt(minMs), Sub(FromInt(now), last))
  }

  /** The delay `setTimeout` applies to a timeout value: the value becomes a
      32-bit signed integer (NaN and the infinities become 0, a fraction is
      cut toward zero, a larger value wraps around) and a negative delay
      is 0. */
  function TimerDelay(w: JsNum): (d: nat)
    ensures d <= MaxTimerDelay
    ensures w.Finite? && w.scale == 0 && 0 <= w.m <= MaxTimerDelay ==> d == w.m
    ensures !w.Finite? ==> d == 0
  {
    match w
    case Finite(m, s) =>
      var t := if m >= 0 then m / Pow10(s) else -((-m) / Pow10(s));
      var u := t % 0x1_0000_0000;
      if u <= MaxTimerDelay then u else 0
    case _ => 0
  }

  /** The guard once it has read the stamp `last`: it sleeps when
      `waitMs > 0`, and a timer fires `lateness` ms after its delay; then it
      stores the clock it reads, unless writing throws. */
  function CooldownFrom(e: Env, minMs: int, lateness: nat, last: JsNum): (r: Env)
    ensures r.canRead == e.canRead && r.canWrite == e.canWrite && r.clock >= e.clock
  {
    var w := WaitMs(minMs, e.clock, last);
    var now := if Less(FromInt(0), w) then e.clock + TimerDelay(w) + lateness else e.clock;
    var store := if e.canWrite then e.store[LastReqKey := NumberToString(FromInt(now))] else e.store;
    Env(now, store, e.canRead, e.canWrite)
  }

  /** The browser after `ensureCooldown(minMs)`: a store that cannot be read
      ends the call at once. */
  function AfterCooldown(e: Env, minMs: int, lateness: nat): (r: Env)
    ensures r.canRead == e.canRead && r.canWrite == e.canWrite && r.clock >= e.clock
  {
    if !e.canRead then e else CooldownFrom(e, minMs, lateness, LastRequestAt(e.store))
  }

  lemma SubInts(a: int, b: int)
    ensures Sub(FromInt(a), FromInt(b)) == FromInt(a - b)
  {
    assert Pow10(0) == 1;
  }

  lemma StampOfNat(n: nat)
    ensures NumberToString(FromInt(n)) == NatToString(n)
  {
  }

  /** Every clock reading is far below the magnitude at which a numeral
      reads as Infinity. */
  lemma TimeValuesAreFinite()
    ensures MaxTimeValue < OverflowThreshold
  {
  }

  /** A stamp written as a whole number that a clock can show reads back as
      that number. */
  lemma OwnStampReadsBack(store: map<string, string>, t0: nat)
    requires LastReqKey in store && store[LastReqKey] == NatToString(t0)
    requires t0 <= MaxTimeValue
    ensures LastRequestAt(store) == FromInt(t0)
  {
    TimeValuesAreFinite();
    StringToNumberOfNat(t0);
  }

  /** After a whole-number stamp `last` no later than the clock, the guard
      sleeps until `last + minMs` if that is still ahead. */
  lemma CooldownFromInt(e: Env, minMs: int, lateness: nat, last: int)
    requires last <= e.clock && 0 <= minMs <= MaxTimerDelay
    ensures CooldownFrom(e, minMs, lateness, FromInt(last)).clock
            == if e.clock >= last + minMs then e.clock else last + minMs + lateness
    ensures CooldownFrom(e, minMs, lateness, FromInt(last)).store
            == if e.canWrite then e.store[LastReqKey := NatToString(CooldownFrom(e, minMs, lateness, FromInt(last)).clock)]
               else e.store
  {
    SubInts(e.clock, last);
    SubInts(minMs, e.clock - last);
    var r := CooldownFrom(e, minMs, lateness, FromInt(last));
    StampOfNat(r.clock);
  }

  /** With its own stamp `t0` in the store, read no later than `t0`, the
      guard sleeps until `t0 + minMs` (if that is still ahead) and then
      stores the clock it reads, which is at least `minMs` after `t0`. */
  lemma CooldownSpacing(e: Env, minMs: int, lateness: nat, t0: nat)
    requires e.canRead && LastReqKey in e.store && e.store[LastReqKey] == NatToString(t0)
    requires t0 <= e.clock && t0 <= MaxTimeValue && 0 <= minMs <= MaxTimerDelay
    ensures AfterCooldown(e, minMs, lateness).clock >= t0 + minMs
    ensures AfterCooldown(e, minMs, lateness).clock
            == if e.clock >= t0 + minMs then e.clock else t0 + minMs + lateness
    ensures AfterCooldown(e, minMs, lateness).store
            == if e.canWrite then e.store[LastReqKey := NatToString(AfterCooldown(e, minMs, lateness).clock)]
               else e.store
  {
    OwnStampReadsBack(e.store, t0);
    CooldownFromInt(e, minMs, lateness, t0);
  }

  /** The browser `gap` ms later. */
  function Later(e: Env, gap: nat): (r: Env)
    ensures r.clock == e.clock + gap && r.store == e.store
    ensures r.canRead == e.canRead && r.canWrite == e.canWrite
  {
    e.(clock := e.clock + gap)
  }

  /** Two guarded requests in a row, with any time passing between them,
      store stamps at least `minMs` apart, while the first stamp is a time
      a `Date` can hold. */
  lemma ConsecutiveStampsSpaced(e: Env, minMs: int, l1: nat, gap: nat, l2: nat)
    requires e.canRead && e.canWrite && 0 <= minMs <= MaxTimerDelay
    requires AfterCooldown(e, minMs, l1).clock <= MaxTimeValue
    ensures AfterCooldown(e, minMs, l1).store[LastReqKey] == NatToString(AfterCooldown(e, minMs, l1).clock)
    ensures AfterCooldown(Later(AfterCooldown(e, minMs, l1), gap), minMs, l2).store[LastReqKey]
            == NatToString(AfterCooldown(Later(AfterCooldown(e, minMs, l1), gap), minMs, l2).clock)
    ensures AfterCooldown(Later(AfterCooldown(e, minMs, l1), gap), minMs, l2).clock
            >= AfterCooldown(e, minMs, l1).clock + minMs
  {
    var e1 := AfterCooldown(e, minMs, l1);
    CooldownStorageFailures(e, minMs, l1);
    StampOfNat(e1.clock);
    CooldownSpacing(Later(e1, gap), minMs, l2, e1.clock);
  }

  /** A missing or empty stamp counts as time 0. */
  lemma CooldownMissingStamp(e: Env, minMs: int, lateness: nat)
    requires e.canRead && (LastReqKey !in e.store || e.store[LastReqKey] == "")
    requires 0 <= minMs <= MaxTimerDelay
    ensures LastRequestAt(e.store) == FromInt(0)
    ensures AfterCooldown(e, minMs, lateness).clock
            == if e.clock >= minMs then e.clock else minMs + lateness
  {
    assert LastRequestAt(e.store) == FromInt(0);
    CooldownFromInt(e, minMs, lateness, 0);
  }

  /** A stamp that does not read as a number makes the wait NaN, and
      `NaN > 0` fails: no sleep. A stamp "Infinity" makes the wait
      infinite, which `setTimeout` turns into no delay at all. */
  lemma CooldownOddStamps(e: Env, minMs: int, lateness: nat)
    requires e.canRead && LastReqKey in e.store
    ensures StringToNumber(e.store[LastReqKey]).NaN? ==> AfterCooldown(e, minMs, lateness).clock == e.clock
    ensures e.store[LastReqKey] == "Infinity" ==> Less(FromInt(0), WaitMs(minMs, e.clock, LastRequestAt(e.store)))
                                                  && AfterCooldown(e, minMs, lateness).clock == e.clock + lateness
  {
    Infinities();
  }

  /** A store that cannot be read leaves everything as it was; one that
      cannot be written keeps its contents. Either way the call returns. */
  lemma CooldownStorageFailures(e: Env, minMs: int, lateness: nat)
    ensures !e.canRead ==> AfterCooldown(e, minMs, lateness) == e
    ensures !e.canWrite ==> AfterCooldown(e, minMs, lateness).store == e.store
    ensures e.canRead && e.canWrite ==>
              AfterCooldown(e, minMs, lateness).store
              == e.store[LastReqKey := NumberToString(FromInt(AfterCooldown(e, minMs, lateness).clock))]
  {
  }

  /** The arguments of `fetchOpenTdbRaw`; Undefined stands for an argument
      that was not passed. */
  datatype QueryArgs = QueryArgs(amount: Value, category: Value, difficulty: Value)

  /** `URLSearchParams.get(name)`: the first value under `name`. */
  function Lookup(qs: seq<(string, string)>, name: string): (r: Option<string>)
    ensures r.Some? ==> (name, r.value) in qs
  {
    if qs == [] then None
    else if qs[0].0 == name then Some(qs[0].1)
    else Lookup(qs[1..], name)
  }

  lemma {:induction false} LookupAppend(qs: seq<(string, string)>, k: string, v: string, name: string)
    ensures Lookup(qs + [(k, v)], name)
            == if Lookup(qs, name).Some? then Lookup(qs, name) else if k == name then Some(v) else None
  {
    if qs != [] {
      assert (qs + [(k, v)])[1..] == qs[1..] + [(k, v)];
      LookupAppend(qs[1..], k, v, name);
    }
  }

  /** The query string's parameters: `amount` always (10 when absent),
      `category` and `difficulty` only when truthy, each as `String(v)`,
      every name once. */
  function Query(args: QueryArgs): (qs: seq<(string, string)>)
    ensures Lookup(qs, "amount") == Some(ToJsString(if args.amount.Undefined? then Num(FromInt(DefaultAmount)) else args.amount))
    ensures Lookup(qs, "category") == if IsTruthy(args.category) then Some(ToJsString(args.category)) else None
    ensures Lookup(qs, "difficulty") == if IsTruthy(args.difficulty) then Some(ToJsString(args.difficulty)) else None
    ensures forall i, j :: 0 <= i < j < |qs| ==> qs[i].0 != qs[j].0
    ensures |qs| == 1 + (if IsTruthy(args.category) then 1 else 0) + (if IsTruthy(args.difficulty) then 1 else 0)
  {
    var amount := if args.amount.Undefined? then Num(FromInt(DefaultAmount)) else args.amount;
    var q1 := [("amount", ToJsString(amount))];
    var cat := ("category", ToJsString(args.category));
    var diff := ("difficulty", ToJsString(args.difficulty));
    var q2 := if IsTruthy(args.category) then q1 + [cat] else q1;
    var q3 := if IsTruthy(args.difficulty) then q2 + [diff] else q2;
    LookupAppend(q1, cat.0, cat.1, "amount");
    LookupAppend(q1, cat.0, cat.1, "difficulty");
    LookupAppend(q2, diff.0, diff.1, "amount");
    LookupAppend(q2, diff.0, diff.1, "category");
    LookupAppend(q2, diff.0, diff.1, "difficulty");
    q3
  }

  /** What the settings page sends for five questions of any kind, and a
      call that leaves the amount out. */
  lemma QueryExample()
    ensures Query(QueryArgs(Num(FromInt(5)), Str(""), Str(""))) == [("amount", "5")]
    ensures Query(QueryArgs(Undefined, Str("9"), Str("easy"))) == [("amount", "10"), ("category", "9"), ("difficulty", "easy")]
  {
    assert NatToString(5) == "5";
    assert NatToString(1) == "1";
    assert NatToString(10) == NatToString(1) + [DigitChar(0)];
    assert ToJsString(Num(FromInt(10))) == "10";
  }

  /** An HTTP reply: its `ok` flag, its status and its parsed JSON body. */
  datatype Reply = Reply(ok: bool, status: nat, body: Value)

  /** What `fetch` settles to: a reply, or a rejection (abort or network error). */
  datatype Response = Answered(reply: Reply) | Refused(err: FetchError)

  datatype Settled<T> = Resolved(value: T) | Rejected(err: FetchError)

  /** The outcome of the question request after its guard. */
  function QuestionsOutcome(response: Response): (r: Settled<Value>)
    ensures response.Refused? ==> r == Rejected(response.err)
    ensures response.Answered? && !response.reply.ok ==>
      r == Rejected(Failure("OpenTDB request failed: " + NatToString(response.reply.status)))
    ensures response.Answered? && response.reply.ok ==> r == Resolved(response.reply.body)
  {
    match response
    case Refused(err) => Rejected(err)
    case Answered(rep) =>
      if rep.ok then Resolved(rep.body)
      else Rejected(Failure("OpenTDB request failed: " + NumberToString(FromInt(rep.status))))
  }

  /** `parsed && typeof parsed.fetchedAt === 'number' &&
      Array.isArray(parsed.data) && Date.now() - parsed.fetchedAt < ttlMs`. */
  predicate Fresh(parsed: Value, now: nat, ttlMs: int) {
    IsTruthy(parsed)
    && OptGet(parsed, "fetchedAt").Num?
    && OptGet(parsed, "data").Arr?
    && Less(Sub(FromInt(now), OptGet(parsed, "fetchedAt").n), FromInt(ttlMs))
  }

  /** The cached list, when the store can be read, holds a non-empty
      record under the cache key, the record parses and it is fresh. */
  function CachedCategories(e: Env, ttlMs: int, parse: string -> Option<Value>): Option<seq<Value>> {
    if !e.canRead || CatsCacheKey !in e.store || e.store[CatsCacheKey] == "" then None
    else
      match parse(e.store[CatsCacheKey])
      case None => None
      case Some(parsed) => if Fresh(parsed, e.clock, ttlMs) then Some(OptGet(parsed, "data").elems) else None
  }

  /** `({ id: c.id, name: c.name })`. */
  function CategoryEntry(c: Value): Value
    requires !IsNullish(c)
  {
    Obj(map["id" := Get(c, "id").value, "name" := Get(c, "name").value])
  }

  /** `cs.map(c => ({ id: c.id, name: c.name }))`; None when an element is
      null or undefined, where reading `c.id` throws. */
  function NormalizeList(cs: seq<Value>): (r: Option<seq<Value>>)
    ensures r.None? <==> exists k :: 0 <= k < |cs| && IsNullish(cs[k])
    ensures r.Some? ==> |r.value| == |cs| && forall k :: 0 <= k < |cs| ==> r.value[k] == CategoryEntry(cs[k])
  {
    if cs == [] then Some([])
    else if IsNullish(cs[0]) then None
    else
      var rest := NormalizeList(cs[1..]);
      assert forall k :: 1 <= k < |cs| ==> cs[k] == cs[1..][k - 1];
      if rest.None? then None else Some([CategoryEntry(cs[0])] + rest.value)
  }

  /** The normalised list of a reply body: `[]` unless `trivia_categories`
      is an array. */
  function Normalized(json: Value): Option<seq<Value>> {
    var tc := OptGet(json, "trivia_categories");
    if tc.Arr? then NormalizeList(tc.elems) else Some([])
  }

  /** The message a TypeError from reading `c.id` on a null or undefined
      element carries, in V8's wording. */
  const NullCategoryMessage: string := "Cannot read properties of null (reading 'id')"
  const UndefinedCategoryMessage: string := "Cannot read properties of undefined (reading 'id')"

  /** The first null or undefined element's error. */
  function NullishError(cs: seq<Value>): (err: FetchError)
    ensures err == Failure(NullCategoryMessage) || err == Failure(UndefinedCategoryMessage)
  {
    if cs == [] then Failure(UndefinedCategoryMessage)
    else if cs[0].Null? then Failure(NullCategoryMessage)
    else if cs[0].Undefined? then Failure(UndefinedCategoryMessage)
    else NullishError(cs[1..])
  }

  /** How the category request ends once it has gone to the network. */
  function MissResult(response: Response): (r: Settled<seq<Value>>)
    ensures response.Refused? ==> r == Rejected(response.err)
    ensures response.Answered? && !response.reply.ok ==>
      r == Rejected(Failure("OpenTDB categories failed: " + NatToString(response.reply.status)))
    ensures response.Answered? && response.reply.ok && Normalized(response.reply.body).Some? ==>
      r == Resolved(Normalized(response.reply.body).value)
    ensures response.Answered? && response.reply.ok && Normalized(response.reply.body).None? ==>
      r == Rejected(Failure(NullCategoryMessage)) || r == Rejected(Failure(UndefinedCategoryMessage))
  {
    match response
    case Refused(err) => Rejected(err)
    case Answered(rep) =>
      if !rep.ok then Rejected(Failure("OpenTDB categories failed: " + NumberToString(FromInt(rep.status))))
      else
        match Normalized(rep.body)
        case Some(data) => Resolved(data)
        case None => Rejected(NullishError(OptGet(rep.body, "trivia_categories").elems))
  }

  /** The record the cache holds: `{ fetchedAt: Date.now(), data }`. */
  function CacheRecord(now: nat, data: seq<Value>): Value {
    Obj(map["fetchedAt" := Num(FromInt(now)), "data" := Arr(data)])
  }

  /** A call of `fetchCategories`: the browser afterwards, the outcome, and
      whether the guard and the network were used. */
  datatype CategoriesCall = CategoriesCall(env: Env, result: Settled<seq<Value>>, networked: bool)

  /** The browser after the guard and a request taking `latency` ms. */
  function AfterRequest(e: Env, lateness: nat, latency: nat): (r: Env)
    ensures r.canRead == e.canRead && r.canWrite == e.canWrite
  {
    Later(AfterCooldown(e, RequestSpacingMs, lateness), latency)
  }

  /** The best-effort cache write of a successful list, stamped with the
      clock it reads. */
  function SaveCache(e: Env, r: Settled<seq<Value>>, stringify: Value -> string): (s: Env)
    ensures s.clock == e.clock && s.canRead == e.canRead && s.canWrite == e.canWrite
  {
    if r.Resolved? && e.canWrite then e.(store := e.store[CatsCacheKey := stringify(CacheRecord(e.clock, r.value))])
    else e
  }

  /** `fetchCategories({ ttlMs })`: a fresh cache answers at once; otherwise
      the guard, the request, the normalisation and the cache write. */
  function FetchCategoriesCall(e: Env, ttlMs: int, lateness: nat, latency: nat, response: Response,
                               parse: string -> Option<Value>, stringify: Value -> string): CategoriesCall
  {
    match CachedCategories(e, ttlMs, parse)
    case Some(data) => CategoriesCall(e, Resolved(data), false)
    case None => CategoriesCall(SaveCache(AfterRequest(e, lateness, latency), MissResult(response), stringify),
                                MissResult(response), true)
  }

  /** The cache answers exactly when the store can be read, the record under
      the key is non-empty and parses, `fetchedAt` is a number, `data` is an
      array and the record is younger than the time to live; it then returns
      `data` and changes nothing. */
  lemma CacheHitCondition(e: Env, ttlMs: int, lateness: nat, latency: nat, response: Response,
                          parse: string -> Option<Value>, stringify: Value -> string)
    ensures !FetchCategoriesCall(e, ttlMs, lateness, latency, response, parse, stringify).networked
            <==> e.canRead && CatsCacheKey in e.store && e.store[CatsCacheKey] != ""
                 && parse(e.store[CatsCacheKey]).Some?
                 && IsTruthy(parse(e.store[CatsCacheKey]).value)
                 && OptGet(parse(e.store[CatsCacheKey]).value, "fetchedAt").Num?
                 && OptGet(parse(e.store[CatsCacheKey]).value, "data").Arr?
                 && Less(Sub(FromInt(e.clock), OptGet(parse(e.store[CatsCacheKey]).value, "fetchedAt").n), FromInt(ttlMs))
    ensures !FetchCategoriesCall(e, ttlMs, lateness, latency, response, parse, stringify).networked ==>
              FetchCategoriesCall(e, ttlMs, lateness, latency, response, parse, stringify)
              == CategoriesCall(e, Resolved(OptGet(parse(e.store[CatsCacheKey]).value, "data").elems), false)
  {
  }

  /** For a whole-millisecond `fetchedAt` the freshness test is
      `now - fetchedAt < ttlMs` on integers. */
  lemma FreshByAge(parsed: Value, now: nat, ttlMs: int, at: int)
    requires IsTruthy(parsed) && OptGet(parsed, "fetchedAt") == Num(FromInt(at)) && OptGet(parsed, "data").Arr?
    ensures Fresh(parsed, now, ttlMs) <==> now - at < ttlMs
  {
    SubInts(now, at);
  }

  /** On a miss the guard runs, the reply alone decides the outcome, and a
      successful list is saved with the clock read after the request when
      the store can be written; otherwise only the guard's stamp changes. */
  lemma MissFetchesAndSaves(e: Env, ttlMs: int, lateness: nat, latency: nat, response: Response,
                            parse: string -> Option<Value>, stringify: Value -> string)
    requires CachedCategories(e, ttlMs, parse).None?
    ensures FetchCategoriesCall(e, ttlMs, lateness, latency, response, parse, stringify)
            == CategoriesCall(SaveCache(AfterRequest(e, lateness, latency), MissResult(response), stringify),
                              MissResult(response), true)
    ensures AfterRequest(e, lateness, latency).clock == AfterCooldown(e, RequestSpacingMs, lateness).clock + latency
    ensures AfterRequest(e, lateness, latency).store == AfterCooldown(e, RequestSpacingMs, lateness).store
    ensures MissResult(response).Resolved? && e.canWrite ==>
              SaveCache(AfterRequest(e, lateness, latency), MissResult(response), stringify).store
              == AfterRequest(e, lateness, latency).store[CatsCacheKey :=
                   stringify(CacheRecord(AfterRequest(e, lateness, latency).clock, MissResult(response).value))]
    ensures MissResult(response).Rejected? || !e.canWrite ==>
              SaveCache(AfterRequest(e, lateness, latency), MissResult(response), stringify)
              == AfterRequest(e, lateness, latency)
  {
  }

  /** A store that cannot be read makes every call a miss, with no stamp
      written. */
  lemma UnreadableStoreAlwaysFetches(e: Env, ttlMs: int, lateness: nat, latency: nat, response: Response,
                                     parse: string -> Option<Value>, stringify: Value -> string)
    requires !e.canRead
    ensures FetchCategoriesCall(e, ttlMs, lateness, latency, response, parse, stringify).networked
    ensures FetchCategoriesCall(e, ttlMs, lateness, latency, response, parse, stringify).result == MissResult(response)
    ensures AfterRequest(e, lateness, latency) == Later(e, latency)
  {
  }

  /** A list the cache write has just saved is served by a later read within
      the time to live, given a JSON codec that reads back what it writes. */
  lemma SavedListIsServed(e: Env, data: seq<Value>, ttlMs: int, gap: nat,
                          parse: string -> Option<Value>, stringify: Value -> string)
    requires e.canRead && e.canWrite && gap < ttlMs
    requires parse(stringify(CacheRecord(e.clock, data))) == Some(CacheRecord(e.clock, data)) && parse("") == None
    ensures CachedCategories(Later(SaveCache(e, Resolved(data), stringify), gap), ttlMs, parse) == Some(data)
  {
    FreshByAge(CacheRecord(e.clock, data), e.clock + gap, ttlMs, e.clock);
  }

  /** After a call that fetched and saved a list, any call within the time
      to live is served from the cache with the same list. */
  lemma CacheRoundTrip(e: Env, ttlMs: int, lateness: nat, latency: nat, response: Response,
                       parse: string -> Option<Value>, stringify: Value -> string,
                       gap: nat, l2: nat, d2: nat, response2: Response)
    requires e.canRead && e.canWrite && gap < ttlMs
    requires CachedCategories(e, ttlMs, parse).None? && MissResult(response).Resolved?
    requires parse(stringify(CacheRecord(AfterRequest(e, lateness, latency).clock, MissResult(response).value)))
             == Some(CacheRecord(AfterRequest(e, lateness, latency).clock, MissResult(response).value))
    requires parse("") == None
    ensures FetchCategoriesCall(Later(FetchCategoriesCall(e, ttlMs, lateness, latency, response, parse, stringify).env, gap),
                                ttlMs, l2, d2, response2, parse, stringify)
            == CategoriesCall(Later(FetchCategoriesCall(e, ttlMs, lateness, latency, response, parse, stringify).env, gap),
                              MissResult(response), false)
  {
    SavedListIsServed(AfterRequest(e, lateness, latency), MissResult(response).value, ttlMs, gap, parse, stringify);
  }

  /** Normalisation keeps one `{id, name}` entry per element, yields `[]`
      for a body without a `trivia_categories` array, and fails with a
      TypeError on a null or undefined element. */
  lemma NormalizedShape(json: Value)
    ensures !OptGet(json, "trivia_categories").Arr? ==> Normalized(json) == Some([])
    ensures var tc := OptGet(json, "trivia_categories");
      tc.Arr? && (forall k :: 0 <= k < |tc.elems| ==> !IsNullish(tc.elems[k])) ==>
        Normalized(json).Some? && |Normalized(json).value| == |tc.elems|
        && forall k :: 0 <= k < |tc.elems| ==>
             Normalized(json).value[k] == Obj(map["id" := OptGet(tc.elems[k], "id"), "name" := OptGet(tc.elems[k], "name")])
    ensures Normalized(json).None? ==> MissResult(Answered(Reply(true, 200, json))).Rejected?
  {
  }

  /** The browser: its clock, its `localStorage`, and whether reading and
      writing the store succeed. */
  class Browser {
    var clock: nat
    var store: map<string, string>
    var canRead: bool
    var canWrite: bool

    function State(): Env
      reads this
    {
      Env(clock, store, canRead, canWrite)
    }

    constructor (e: Env)
      ensures State() == e
    {
      clock, store, canRead, canWrite := e.clock, e.store, e.canRead, e.canWrite;
    }

    /** Time passing between calls. */
    method Elapse(ms: nat)
      modifies this`clock
      ensures clock == old(clock) + ms
    {
      clock := clock + ms;
    }

    /** `ensureCooldown(minMs)`. */
    method EnsureCooldown(minMs: int, lateness: nat)
      modifies this`clock, this`store
      ensures State() == AfterCooldown(old(State()), minMs, lateness)
    {
      if !canRead {
        return;
      }
      var raw := GetItem(store, LastReqKey);
      var lastReqTime := ToNumber(if IsTruthy(raw) then raw else Num(FromInt(0)));
      var elapsed := Sub(FromInt(clock), lastReqTime);
      var waitMs := Sub(FromInt(minMs), elapsed);
      if Less(FromInt(0), waitMs) {
        clock := clock + TimerDelay(waitMs) + lateness;
      }
      if canWrite {
        store := store[LastReqKey := NumberToString(FromInt(clock))];
      }
    }

    /** The query of `fetchOpenTdbRaw`, built by successive `qs.set` calls;
        each name is new when it is set, so each call appends. */
    static method BuildQuery(args: QueryArgs) returns (qs: seq<(string, string)>)
      ensures qs == Query(args)
    {
      var amount := if args.amount.Undefined? then Num(FromInt(DefaultAmount)) else args.amount;
      qs := [("amount", ToJsString(amount))];
      if IsTruthy(args.category) {
        qs := qs + [("category", ToJsString(args.category))];
      }
      if IsTruthy(args.difficulty) {
        qs := qs + [("difficulty", ToJsString(args.difficulty))];
      }
    }

    /** `fetchOpenTdbRaw(args)`: the guard, then the request with the query
        `sent`, taking `latency` ms. */
    method FetchOpenTdbRaw(args: QueryArgs, lateness: nat, latency: nat, response: Response)
      returns (sent: seq<(string, string)>, r: Settled<Value>)
      modifies this`clock, this`store
      ensures var e1 := AfterCooldown(old(State()), RequestSpacingMs, lateness);
        State() == e1.(clock := e1.clock + latency)
      ensures sent == Query(args) && r == QuestionsOutcome(response)
    {
      EnsureCooldown(RequestSpacingMs, lateness);
      sent := BuildQuery(args);
      clock := clock + latency;
      match response
      case Refused(err) =>
        r := Rejected(err);
      case Answered(rep) =>
        if !rep.ok {
          r := Rejected(Failure("OpenTDB request failed: " + NumberToString(FromInt(rep.status))));
        } else {
          r := Resolved(rep.body);
        }
    }

    /** The first step of `fetchCategories`: the cached list when the
        record is fresh; a failed read or parse counts as no record. */
    method ReadCache(ttlMs: int, parse: string -> Option<Value>) returns (cached: Option<seq<Value>>)
      ensures cached == CachedCategories(State(), ttlMs, parse)
    {
      cached := None;
      if canRead && CatsCacheKey in store && store[CatsCacheKey] != "" {
        var parsed := parse(store[CatsCacheKey]);
        if parsed.Some? && Fresh(parsed.value, clock, ttlMs) {
          cached := Some(OptGet(parsed.value, "data").elems);
        }
      }
    }

    /** `fetchCategories({ ttlMs })`. */
    method FetchCategories(ttlMs: int, lateness: nat, latency: nat, response: Response,
                           parse: string -> Option<Value>, stringify: Value -> string)
      returns (r: Settled<seq<Value>>, networked: bool)
      modifies this`clock, this`store
      ensures CategoriesCall(State(), r, networked)
              == FetchCategoriesCall(old(State()), ttlMs, lateness, latency, response, parse, stringify)
    {
      var cached := ReadCache(ttlMs, parse);
      if cached.Some? {
        return Resolved(cached.value), false;
      }
      networked := true;
      EnsureCooldown(RequestSpacingMs, lateness);
      Elapse(latency);
      r := MissResult(response);
      if r.Resolved? && canWrite {
        store := store[CatsCacheKey := stringify(CacheRecord(clock, r.value))];
      }
    }
  }
}
