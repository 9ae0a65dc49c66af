/**
 * What `add_new_expense` accepts from one answer to each prompt, and the
 * row it then writes: the category after `strip().capitalize()`, a
 * positive amount, the stripped note and the current time as
 * `YYYY-MM-DD HH:MM:SS`.
 */
module Validation {
  import opened Wrappers
  import opened Text
  import opened Timestamp
  import opened Ledger

  datatype Category = Food | Travel | Study | Other

  /** `expense_categories`, in menu order. */
  const Labels: seq<string> := ["Food", "Travel", "Study", "Other"]

  function Label(c: Category): (r: string)
    ensures r in Labels && IsCapitalizedWord(r)
  {
    match c
    case Food => "Food"
    case Travel => "Travel"
    case Study => "Study"
    case Other => "Other"
  }

  /** An answer in canonical form: `answer.strip().capitalize()`. */
  function Canonical(answer: string): string
  {
    Capitalize(Strip(answer))
  }

  /** The category an answer names (`category_input in expense_categories`), or None. */
  function ParseCategory(answer: string): (r: Option<Category>)
    ensures r.Some? <==> Canonical(answer) in Labels
    ensures r.Some? ==> Label(r.value) == Canonical(answer)
  {
    Named(Canonical(answer))
  }

  /** The category whose label is `name`, or None. */
  function Named(name: string): (r: Option<Category>)
    ensures r.Some? <==> name in Labels
    ensures r.Some? ==> Label(r.value) == name
  {
    if name == "Food" then Some(Food)
    else if name == "Travel" then Some(Travel)
    else if name == "Study" then Some(Study)
    else if name == "Other" then Some(Other)
    else None
  }

  /** Different categories have different labels. */
  lemma LabelInjective(c: Category, d: Category)
    requires Label(c) == Label(d)
    ensures c == d
  {
  }

  /**
   * An answer names a category exactly when, without its surrounding
   * whitespace, it is that category's label in any mixture of cases.
   */
  lemma CategoryAcceptedIff(answer: string, c: Category)
    ensures ParseCategory(answer) == Some(c) <==> CaseInsensitiveEq(Strip(answer), Label(c))
  {
    CapitalizeMatches(Strip(answer), Label(c));
    var r := ParseCategory(answer);
    if r.Some? && Label(r.value) == Label(c) {
      LabelInjective(r.value, c);
    }
  }

  /** Whitespace around the label and the case of its letters do not matter. */
  lemma CategoryPadded(lead: string, word: string, trail: string, c: Category)
    requires AllSpace(lead) && AllSpace(trail)
    requires CaseInsensitiveEq(word, Label(c))
    ensures ParseCategory(lead + word + trail) == Some(c)
  {
    assert word[0] != ' ' && Lower(word[0]) == Lower(Label(c)[0]);
    assert Trimmed(word) by {
      assert Lower(word[|word| - 1]) == Lower(Label(c)[|word| - 1]);
    }
    StripPadded(lead, word, trail);
    CategoryAcceptedIff(lead + word + trail, c);
  }

  lemma CategoryExampleFood()
    ensures ParseCategory(" fOOd ") == Some(Food)
  {
    assert " fOOd " == " " + "fOOd" + " ";
    CategoryPadded(" ", "fOOd", " ", Food);
  }

  lemma CategoryExampleTravel()
    ensures ParseCategory("travel") == Some(Travel)
  {
    assert "travel" == [] + "travel" + [];
    CategoryPadded([], "travel", [], Travel);
  }

  /** A word outside the fixed set is refused. */
  lemma CategoryExampleUnknown()
    ensures ParseCategory("Groceries") == None
  {
    var g := "Groceries";
    assert Strip(g) == g by {
      assert Trimmed(g);
      assert [] + g + [] == g;
      StripPadded([], g, []);
    }
    LongAnswerRefused(g);
  }

  /** No label is longer than six characters, so a longer answer is refused. */
  lemma LongAnswerRefused(answer: string)
    requires |Strip(answer)| > 6
    ensures ParseCategory(answer) == None
  {
    var k := Canonical(answer);
    assert |k| > 6;
    assert |"Food"| == 4 && |"Travel"| == 6 && |"Study"| == 5 && |"Other"| == 5;
    assert k != "Food" && k != "Travel" && k != "Study" && k != "Other";
  }

  /** A Python float: a finite value, an infinity or NaN. */
  datatype Float = Finite(value: real) | PosInf | NegInf | NaN

  /** `x <= 0` on an IEEE 754 double; every comparison with NaN is false. */
  predicate AtMostZero(x: Float)
  {
    match x
    case Finite(v) => v <= 0.0
    case NegInf => true
    case PosInf => false
    case NaN => false
  }

  datatype AmountError = NotANumber | NotPositive | NotFinite

  /**
   * The amount check as written: refused when `float()` raises (None) or
   * when `amount <= 0`, taken otherwise: besides the positive numbers, NaN
   * and +infinity pass.
   */
  function AmountCheckAsWritten(input: Option<Float>): (r: Result<Float, AmountError>)
    ensures r.Ok? ==> input == Some(r.value)
    ensures r.Ok? <==>
      input == Some(NaN) || input == Some(PosInf) || (input.Some? && input.value.Finite? && input.value.value > 0.0)
  {
    if input.None? then Err(NotANumber)
    else if AtMostZero(input.value) then Err(NotPositive)
    else Ok(input.value)
  }

  /** As written, the answers `nan` and `inf` pass the check; the intended check refuses both. */
  lemma AmountCheckAsWrittenAccepts()
    ensures AmountCheckAsWritten(Some(NaN)) == Ok(NaN)
    ensures AmountCheckAsWritten(Some(PosInf)) == Ok(PosInf)
    ensures CheckAmount(Some(NaN)).Err? && CheckAmount(Some(PosInf)).Err?
  {
  }

  /** The intended check: the amount is a positive number. */
  function CheckAmount(input: Option<Float>): (r: Result<real, AmountError>)
    ensures r.Ok? <==> input.Some? && input.value.Finite? && input.value.value > 0.0
    ensures r.Ok? ==> input == Some(Finite(r.value))
    ensures r.Err? && input.Some? && input.value.Finite? ==> r.error == NotPositive
    ensures input.None? || input == Some(NaN) ==> r == Err(NotANumber)
    ensures input == Some(PosInf) || input == Some(NegInf) ==> r == Err(NotFinite)
  {
    match input
    case None => Err(NotANumber)
    case Some(NaN) => Err(NotANumber)
    case Some(PosInf) => Err(NotFinite)
    case Some(NegInf) => Err(NotFinite)
    case Some(Finite(v)) => if v <= 0.0 then Err(NotPositive) else Ok(v)
  }

  /**
   * The intended check refuses only what the written one wrongly takes: on
   * anything but NaN and the infinities the two agree.
   */
  lemma CheckAmountRefinesAsWritten(input: Option<Float>)
    ensures CheckAmount(input).Ok? ==> AmountCheckAsWritten(input) == Ok(Finite(CheckAmount(input).value))
    ensures input != Some(NaN) && input != Some(PosInf) && input != Some(NegInf) ==>
      (CheckAmount(input).Ok? <==> AmountCheckAsWritten(input).Ok?)
  {
  }

  /** What every row written by `add_new_expense` satisfies. */
  predicate WellFormed(e: Expense)
  {
    Parse(e.date).Some? && e.category in Labels && e.amount > 0.0
  }

  datatype InputError = UnknownCategory | BadAmount(reason: AmountError)

  /**
   * The row `add_new_expense` writes for one answer to each prompt, taken
   * at `now`; an error for an answer the prompt would ask again for.
   */
  function NewExpense(categoryAnswer: string, amountAnswer: Option<Float>, noteAnswer: string, now: DateTime): (r: Result<Expense, InputError>)
    requires Valid(now)
    ensures r.Ok? <==> ParseCategory(categoryAnswer).Some? && CheckAmount(amountAnswer).Ok?
    ensures r.Err? ==> r.error == if ParseCategory(categoryAnswer).None? then UnknownCategory else BadAmount(CheckAmount(amountAnswer).error)
    ensures r.Ok? ==>
      && WellFormed(r.value)
      && Parse(r.value.date) == Some(now)
      && r.value.category == Canonical(categoryAnswer)
      && amountAnswer == Some(Finite(r.value.amount))
      && r.value.note == Strip(noteAnswer)
  {
    var category := ParseCategory(categoryAnswer);
    var amount := CheckAmount(amountAnswer);
    if category.None? then Err(UnknownCategory)
    else if amount.Err? then Err(BadAmount(amount.error))
    else
      ParseFormat(now);
      Ok(Expense(Format(now), Label(category.value), amount.value, Strip(noteAnswer)))
  }
}
