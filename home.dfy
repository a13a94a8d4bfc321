/** The settings page of `src/pages/Home.jsx`: a draft of the settings the
    user edits, the category list loaded for the category select, the
    rule that clears a draft category the list no longer offers, the Start
    and select disabled rules, and Start itself, which persists the draft. */
module Home {
  import opened Common
  import opened JsNumber
  import opened JsValue

  datatype CatStatus = Idle | Loading | Ready | Error

  const LoadFailedMessage: string := "Failed to load categories"

  /** The persisted settings record; each field holds whatever JSON value
      was stored. */
  datatype Settings = Settings(amount: Value, difficulty: Value, category: Value)

  /** The defaults the settings store starts from. */
  const DefaultSettings: Settings := Settings(Num(FromInt(5)), Str(""), Str(""))

  /** `categories.some(c => String(c.id) === String(category))`: stops at
      the first match; reading `c.id` on a null or undefined element before
      a match throws a TypeError (None). */
  function CategoryListed(cats: seq<Value>, category: Value): Option<bool>
  {
    if cats == [] then Some(false)
    else if IsNullish(cats[0]) then None
    else if ToJsString(Get(cats[0], "id").value) == ToJsString(category) then Some(true)
    else CategoryListed(cats[1..], category)
  }

  /** The element at `k` is the first listed one whose id reads as `category`. */
  predicate FirstMatchAt(cats: seq<Value>, category: Value, k: int) {
    0 <= k < |cats|
    && (forall j :: 0 <= j <= k ==> !IsNullish(cats[j]))
    && ToJsString(Get(cats[k], "id").value) == ToJsString(category)
    && forall j :: 0 <= j < k ==> ToJsString(Get(cats[j], "id").value) != ToJsString(category)
  }

  /** The search answers true exactly at a first match with nothing null
      before it. */
  lemma {:induction false} CategoryListedTrue(cats: seq<Value>, category: Value)
    ensures CategoryListed(cats, category) == Some(true) <==> exists k :: FirstMatchAt(cats, category, k)
  {
    if cats != [] && !IsNullish(cats[0]) && ToJsString(Get(cats[0], "id").value) != ToJsString(category) {
      var rest := cats[1..];
      CategoryListedTrue(rest, category);
      if exists k :: FirstMatchAt(rest, category, k) {
        var k :| FirstMatchAt(rest, category, k);
        assert FirstMatchAt(cats, category, k + 1) by {
          forall j | 1 <= j <= k + 1 ensures cats[j] == rest[j - 1] { }
        }
      }
      if exists k :: FirstMatchAt(cats, category, k) {
        var k :| FirstMatchAt(cats, category, k);
        assert k > 0;
        assert FirstMatchAt(rest, category, k - 1) by {
          forall j | 0 <= j <= k - 1 ensures rest[j] == cats[j + 1] { }
        }
      }
    } else if cats != [] && !IsNullish(cats[0]) {
      assert FirstMatchAt(cats, category, 0);
    }
  }

  /** The search answers false exactly when no element is null or matches. */
  lemma {:induction false} CategoryListedFalse(cats: seq<Value>, category: Value)
    ensures CategoryListed(cats, category) == Some(false) <==>
      forall j :: 0 <= j < |cats| ==> !IsNullish(cats[j]) && ToJsString(Get(cats[j], "id").value) != ToJsString(category)
  {
    if cats != [] && !IsNullish(cats[0]) && ToJsString(Get(cats[0], "id").value) != ToJsString(category) {
      CategoryListedFalse(cats[1..], category);
      assert forall j :: 1 <= j < |cats| ==> cats[j] == cats[1..][j - 1];
    }
  }

  /** Without null or undefined elements the search never throws. */
  lemma {:induction false} NoNullNeverThrows(cats: seq<Value>, category: Value)
    requires forall j :: 0 <= j < |cats| ==> !IsNullish(cats[j])
    ensures CategoryListed(cats, category).Some?
  {
    if cats != [] {
      assert forall j :: 0 <= j < |cats| - 1 ==> cats[1..][j] == cats[j + 1];
      NoNullNeverThrows(cats[1..], category);
    }
  }

  /** The fallback effect: once the list is ready, a draft category that no
      listed id reads as is cleared to "" ("Any"); a throwing search is
      None and changes nothing. */
  function Fallback(status: CatStatus, cats: seq<Value>, draft: Settings): Option<Settings> {
    if status != Ready then Some(draft)
    else
      match CategoryListed(cats, draft.category)
      case None => None
      case Some(exists_) => Some(if exists_ then draft else draft.(category := Str("")))
  }

  /** The fallback runs only when the list is ready, touches only the
      category, and clears it exactly when the list does not offer it. */
  lemma FallbackRule(status: CatStatus, cats: seq<Value>, draft: Settings)
    ensures status != Ready ==> Fallback(status, cats, draft) == Some(draft)
    ensures Fallback(status, cats, draft).Some? ==>
      var d := Fallback(status, cats, draft).value;
      d.amount == draft.amount && d.difficulty == draft.difficulty
    ensures status == Ready && CategoryListed(cats, draft.category).Some? ==>
      (Fallback(status, cats, draft).value.category == Str("") || Fallback(status, cats, draft) == Some(draft))
      && (Fallback(status, cats, draft) == Some(draft) <==> CategoryListed(cats, draft.category) == Some(true)
                                                             || draft.category == Str(""))
  {
  }

  /** Running the effect again after it has run changes nothing. */
  lemma FallbackIdempotent(status: CatStatus, cats: seq<Value>, draft: Settings)
    requires Fallback(status, cats, draft).Some?
    ensures Fallback(status, cats, Fallback(status, cats, draft).value) == Fallback(status, cats, draft)
  {
    var d := Fallback(status, cats, draft).value;
    if status == Ready && d != draft {
      CategoryListedFalse(cats, draft.category);
      NoNullNeverThrows(cats, d.category);
    }
  }

  /** Start is disabled while the list loads and a category is drafted. */
  predicate StartDisabled(status: CatStatus, draft: Settings) {
    status == Loading && draft.category != Str("")
  }

  /** The category select is disabled while loading or after a failure. */
  predicate SelectDisabled(status: CatStatus) {
    status == Loading || status == Error
  }

  /** Start is blocked only while the list loads, and then only for a
      drafted category; the select is disabled whenever Start is, and after
      a failure the select is disabled but Start is not. */
  lemma DisabledRules(status: CatStatus, draft: Settings)
    ensures StartDisabled(status, draft) ==> SelectDisabled(status)
    ensures status != Loading ==> !StartDisabled(status, draft)
    ensures status == Loading ==> (StartDisabled(status, draft) <==> draft.category != Str(""))
    ensures status == Error ==> SelectDisabled(status) && !StartDisabled(status, draft)
  {
  }

  /** What Start can submit: while the list loads only "Any"; once the list
      is ready and the fallback has settled, "Any" or a listed category;
      after a failed load any drafted category, although the hint says
      "Any category" is used. */
  lemma StartableDrafts(status: CatStatus, cats: seq<Value>, draft: Settings)
    ensures status == Loading && !StartDisabled(status, draft) ==> draft.category == Str("")
    ensures status == Ready && Fallback(status, cats, draft) == Some(draft) ==>
      !StartDisabled(status, draft)
      && (draft.category == Str("") || CategoryListed(cats, draft.category) == Some(true))
    ensures status == Error ==> !StartDisabled(status, draft) && SelectDisabled(status)
  {
  }

  /** The message shown for a failed load: the error's own message when
      non-empty, else the fixed text. */
  function LoadErrorText(err: FetchError): (t: string)
    requires err.Failure?
    ensures t != ""
    ensures err.message != "" ==> t == err.message
  {
    if err.message != "" then err.message else LoadFailedMessage
  }

  /** Length of the run of decimal digits starting at index i. */
  function DigitRunFrom(s: string, i: nat): (n: nat)
    requires i <= |s|
    ensures i + n <= |s|
    decreases |s| - i
  {
    if i < |s| && IsDigit(s[i]) then 1 + DigitRunFrom(s, i + 1) else 0
  }

  /** An optional exponent `e`/`E`, an optional sign and digits, ending the text. */
  predicate ExponentOrEnd(s: string, i: nat)
    requires i <= |s|
  {
    if i == |s| then true
    else if s[i] == 'e' || s[i] == 'E' then
      var j := if i + 1 < |s| && (s[i + 1] == '-' || s[i + 1] == '+') then i + 2 else i + 1;
      DigitRunFrom(s, j) >= 1 && j + DigitRunFrom(s, j) == |s|
    else false
  }

  /** An optional `.` followed by at least one digit, then the exponent part. */
  predicate AfterInteger(s: string, i: nat)
    requires i <= |s|
  {
    if i < |s| && s[i] == '.' then
      DigitRunFrom(s, i + 1) >= 1 && ExponentOrEnd(s, i + 1 + DigitRunFrom(s, i + 1))
    else ExponentOrEnd(s, i)
  }

  /** The HTML "valid floating-point number": an optional `-`, then digits,
      a `.` followed by digits, or both, then an optional exponent. */
  predicate ValidFloatingPoint(s: string) {
    var i := if |s| > 0 && s[0] == '-' then 1 else 0;
    var d := DigitRunFrom(s, i);
    (d >= 1 && AfterInteger(s, i + d)) || (d == 0 && i < |s| && s[i] == '.' && AfterInteger(s, i))
  }

  /** What `e.target.value` of the `<input type="number">` amount field
      reports for the typed text: the browser's value sanitisation turns
      text that is not a valid floating-point number into "". */
  function FieldValue(typed: string): (v: string)
    ensures v == typed || v == ""
  {
    if ValidFloatingPoint(typed) then typed else ""
  }

  lemma {:induction false} DigitRunOfDigits(s: string, i: nat)
    requires i <= |s| && AllDigits(s)
    ensures DigitRunFrom(s, i) == |s| - i
    decreases |s| - i
  {
    if i < |s| {
      DigitRunOfDigits(s, i + 1);
    }
  }

  /** `Number(e.target.value)` for what the amount field reports: the
      numeral of n reads as n, while an empty field and any text that is
      not a number (reported as "") are both stored as 0, never NaN. */
  lemma AmountFieldReadings(n: nat)
    ensures FieldValue(NatToString(n)) == NatToString(n)
    ensures StringToNumber(FieldValue(NatToString(n))) == if n < OverflowThreshold then FromInt(n) else PosInf
    ensures StringToNumber(FieldValue("")) == FromInt(0)
    ensures FieldValue("abc") == "" && StringToNumber(FieldValue("abc")) == FromInt(0)
    ensures FieldValue(".5") == ".5" && FieldValue("-.5") == "-.5"
    ensures FieldValue("5.") == ""
  {
    var s := NatToString(n);
    DigitRunOfDigits(s, 0);
    assert s[0] != '-';
    assert ValidFloatingPoint(s);
    StringToNumberOfNat(n);
    BlankIsZero("");
    assert !ValidFloatingPoint("abc") by {
      assert DigitRunFrom("abc", 0) == 0;
    }
  }

  /** The page's state: the persisted settings, the draft, the category
      list and its load status and error, and where the page sent the user. */
  class HomePage {
    var settings: Settings
    var draft: Settings
    var categories: seq<Value>
    var catStatus: CatStatus
    var catError: Option<string>
    var route: Option<string>

    /** An error is held exactly in the error status, and it has text. */
    predicate Valid()
      reads this
    {
      (catError.Some? <==> catStatus == Error)
      && (catError.Some? ==> catError.value != "")
    }

    /** The hint under the category select: shown exactly after a failed
        load, and led by the error's text. */
    function ErrorHint(): (h: Option<string>)
      reads this
      requires Valid()
      ensures h.Some? <==> catStatus == Error
      ensures h.Some? ==> |h.value| > |catError.value| > 0 && h.value[..|catError.value|] == catError.value
    {
      if catStatus == Error then Some(catError.value + " — using \"Any category\".") else None
    }

    /** Mounting: the draft starts as the persisted settings. */
    constructor (saved: Settings)
      ensures Valid()
      ensures settings == saved && draft == saved && categories == []
      ensures catStatus == Idle && catError == None && route == None
    {
      settings, draft, categories := saved, saved, [];
      catStatus, catError, route := Idle, None, None;
    }

    /** The load effect starts. */
    method BeginLoad()
      modifies this`catStatus, this`catError
      ensures Valid() && catStatus == Loading && catError == None
      ensures SelectDisabled(catStatus)
      ensures StartDisabled(catStatus, draft) <==> draft.category != Str("")
    {
      catStatus, catError := Loading, None;
    }

    /** The load resolved with a list. */
    method LoadResolved(list: seq<Value>)
      requires Valid() && catStatus == Loading
      modifies this`categories, this`catStatus
      ensures Valid() && categories == list && catStatus == Ready
      ensures !SelectDisabled(catStatus) && !StartDisabled(catStatus, draft)
    {
      categories, catStatus := list, Ready;
    }

    /** The load rejected: an abort changes nothing, any other error is
      shown and the status becomes the error status. */
    method LoadRejected(err: FetchError)
      requires Valid() && catStatus == Loading
      modifies this`catStatus, this`catError
      ensures Valid()
      ensures err.AbortError? ==> catStatus == old(catStatus) && catError == old(catError)
      ensures err.Failure? ==> catStatus == Error && catError == Some(LoadErrorText(err))
      ensures err.Failure? ==> SelectDisabled(catStatus) && !StartDisabled(catStatus, draft)
    {
      if err.AbortError? {
        return;
      }
      catError := Some(LoadErrorText(err));
      catStatus := Error;
    }

    /** The fallback effect. It reports whether the search threw, in which
        case nothing changes. */
    method ApplyFallback() returns (threw: bool)
      modifies this`draft
      ensures threw <==> Fallback(catStatus, categories, old(draft)).None?
      ensures !threw ==> Some(draft) == Fallback(catStatus, categories, old(draft))
      ensures threw ==> draft == old(draft)
    {
      threw := false;
      if catStatus != Ready {
        return;
      }
      var exists_ := CategoryListed(categories, draft.category);
      if exists_.None? {
        threw := true;
        return;
      }
      if !exists_.value {
        draft := draft.(category := Str(""));
      }
    }

    /** The amount field: `Number(value)`, where value is what the number
        field reports (`FieldValue` of the typed text). */
    method SetAmount(value: string)
      modifies this`draft
      ensures draft == old(draft).(amount := Num(StringToNumber(value)))
    {
      draft := draft.(amount := Num(StringToNumber(value)));
    }

    /** The difficulty select. */
    method SetDifficulty(value: string)
      modifies this`draft
      ensures draft == old(draft).(difficulty := Str(value))
    {
      draft := draft.(difficulty := Str(value));
    }

    /** The category select; "" means any category. */
    method SetCategory(value: string)
      modifies this`draft
      ensures draft == old(draft).(category := Str(value))
    {
      draft := draft.(category := Str(value));
    }

    /** `onStart`: the draft becomes the settings, unchanged, and the page
        goes to the quiz. */
    method OnStart()
      modifies this`settings, this`route
      ensures settings == draft && route == Some("/play")
    {
      settings := draft;
      route := Some("/play");
    }
  }
}
