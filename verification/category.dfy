/**
 * The `Category` enum of the ledger: display names, constant names, and the
 * synonym table that `from` consults after trimming and lower-casing its input.
 */
module Categories {
  import opened Wrappers
  import opened JavaText

  datatype Category =
    | FOOD | LODGING | TRANSPORT | ENTERTAINMENT | GROCERIES
    | TUITION | RENT | UTILITIES | HEALTH | OTHER

  /** `display()`: the name given to the constant's constructor. */
  function Display(c: Category): (r: string)
    ensures r != [] && IsAsciiUpper(r[0])
  {
    match c
    case FOOD => "Food"
    case LODGING => "Lodging"
    case TRANSPORT => "Transport"
    case ENTERTAINMENT => "Entertainment"
    case GROCERIES => "Groceries"
    case TUITION => "Tuition"
    case RENT => "Rent"
    case UTILITIES => "Utilities"
    case HEALTH => "Health"
    case OTHER => "Other"
  }

  /** `code()`, i.e. `name()`. */
  function Code(c: Category): (r: string)
    ensures r != [] && forall i :: 0 <= i < |r| ==> IsAsciiUpper(r[i])
  {
    match c
    case FOOD => "FOOD"
    case LODGING => "LODGING"
    case TRANSPORT => "TRANSPORT"
    case ENTERTAINMENT => "ENTERTAINMENT"
    case GROCERIES => "GROCERIES"
    case TUITION => "TUITION"
    case RENT => "RENT"
    case UTILITIES => "UTILITIES"
    case HEALTH => "HEALTH"
    case OTHER => "OTHER"
  }

  /** The constant's name is its display name in upper case. */
  lemma CodeIsUpperDisplay(c: Category)
    ensures Code(c) == ToUpper(Display(c))
  {
    match c
    case FOOD => assert ToUpper("Food") == "FOOD";
    case LODGING => assert ToUpper("Lodging") == "LODGING";
    case TRANSPORT => assert ToUpper("Transport") == "TRANSPORT";
    case ENTERTAINMENT => assert ToUpper("Entertainment") == "ENTERTAINMENT";
    case GROCERIES => assert ToUpper("Groceries") == "GROCERIES";
    case TUITION => assert ToUpper("Tuition") == "TUITION";
    case RENT => assert ToUpper("Rent") == "RENT";
    case UTILITIES => assert ToUpper("Utilities") == "UTILITIES";
    case HEALTH => assert ToUpper("Health") == "HEALTH";
    case OTHER => assert ToUpper("Other") == "OTHER";
  }

  /** `toString()` is overridden to give the display name. */
  function ToString(c: Category): (r: string)
    ensures r == Display(c)
  {
    Display(c)
  }

  // The `case` labels of the `switch` in `from`, grouped by the category they select.
  const FoodLabels: set<string> := {"food", "meal", "meals", "dining", "restaurant"}
  const LodgingLabels: set<string> := {"lodging", "hotel", "hostel", "accommodation", "stay"}
  const TransportLabels: set<string> := {"transport", "transportation", "uber", "taxi", "bus",
    "train", "metro", "subway", "flight", "flights", "airfare", "ride"}
  const EntertainmentLabels: set<string> := {"entertainment", "movie", "movies", "cinema",
    "music", "game", "games", "concert"}
  const GroceriesLabels: set<string> := {"groceries", "grocery", "supermarket"}
  const TuitionLabels: set<string> := {"tuition", "school", "fees", "education"}
  const RentLabels: set<string> := {"rent", "housing", "apartment", "dorm"}
  const UtilitiesLabels: set<string> := {"utilities", "utility", "electric", "electricity",
    "water", "internet", "wifi", "gas"}
  const HealthLabels: set<string> := {"health", "medical", "pharmacy", "medicine", "doctor"}

  /** The labels that lead to `c`; OTHER has none (it is the `default`). */
  function Synonyms(c: Category): set<string>
  {
    match c
    case FOOD => FoodLabels
    case LODGING => LodgingLabels
    case TRANSPORT => TransportLabels
    case ENTERTAINMENT => EntertainmentLabels
    case GROCERIES => GroceriesLabels
    case TUITION => TuitionLabels
    case RENT => RentLabels
    case UTILITIES => UtilitiesLabels
    case HEALTH => HealthLabels
    case OTHER => {}
  }

  /** The `switch` itself, on an already trimmed and lower-cased key. */
  function Lookup(key: string): (r: Category)
    ensures r != OTHER ==> key in Synonyms(r)
    ensures r == OTHER ==> forall c :: key !in Synonyms(c)
  {
    if key in Synonyms(FOOD) then FOOD
    else if key in Synonyms(LODGING) then LODGING
    else if key in Synonyms(TRANSPORT) then TRANSPORT
    else if key in Synonyms(ENTERTAINMENT) then ENTERTAINMENT
    else if key in Synonyms(GROCERIES) then GROCERIES
    else if key in Synonyms(TUITION) then TUITION
    else if key in Synonyms(RENT) then RENT
    else if key in Synonyms(UTILITIES) then UTILITIES
    else if key in Synonyms(HEALTH) then HEALTH
    else OTHER
  }

  /** `Category.from(input)`. */
  function From(input: NullableString): (r: Category)
    ensures input.None? ==> r == OTHER
    ensures input.Some? ==> r == Lookup(ToLower(Trim(input.value)))
  {
    if input.None? then OTHER else Lookup(ToLower(Trim(input.value)))
  }

  /** `Category.normalize(raw)`. */
  function Normalize(raw: NullableString): (r: string)
    ensures r == Display(From(raw))
  {
    Display(From(raw))
  }

  // One helper per category keeps each proof obligation small: it compares the
  // category's labels only with the labels tested before them.

  lemma SelectsFood(w: string)
    requires w in Synonyms(FOOD)
    ensures Lookup(w) == FOOD
  {
  }

  lemma SelectsLodging(w: string)
    requires w in Synonyms(LODGING)
    ensures Lookup(w) == LODGING
  {
  }

  lemma SelectsTransport(w: string)
    requires w in Synonyms(TRANSPORT)
    ensures Lookup(w) == TRANSPORT
  {
  }

  lemma SelectsEntertainment(w: string)
    requires w in Synonyms(ENTERTAINMENT)
    ensures Lookup(w) == ENTERTAINMENT
  {
  }

  lemma SelectsGroceries(w: string)
    requires w in Synonyms(GROCERIES)
    ensures Lookup(w) == GROCERIES
  {
  }

  lemma SelectsTuition(w: string)
    requires w in Synonyms(TUITION)
    ensures Lookup(w) == TUITION
  {
  }

  lemma SelectsRent(w: string)
    requires w in Synonyms(RENT)
    ensures Lookup(w) == RENT
  {
  }

  lemma SelectsUtilities(w: string)
    requires w in Synonyms(UTILITIES)
    ensures Lookup(w) == UTILITIES
  {
  }

  lemma SelectsHealth(w: string)
    requires w in Synonyms(HEALTH)
    ensures Lookup(w) == HEALTH
  {
  }

  /** Each listed synonym, exactly as written, selects its own category: no label
      appears under two categories (Java rejects duplicate `case` labels). */
  lemma {:induction false} SynonymSelects(c: Category, w: string)
    requires w in Synonyms(c)
    ensures Lookup(w) == c
  {
    match c
    case FOOD => SelectsFood(w);
    case LODGING => SelectsLodging(w);
    case TRANSPORT => SelectsTransport(w);
    case ENTERTAINMENT => SelectsEntertainment(w);
    case GROCERIES => SelectsGroceries(w);
    case TUITION => SelectsTuition(w);
    case RENT => SelectsRent(w);
    case UTILITIES => SelectsUtilities(w);
    case HEALTH => SelectsHealth(w);
  }

  /** Any word that is not a listed synonym gives OTHER. */
  lemma UnlistedIsOther(w: string)
    requires forall c :: w !in Synonyms(c)
    ensures Lookup(w) == OTHER
  {
  }

  /** `from` ignores the case of its input. */
  lemma {:induction false} FromIgnoresCase(s: string)
    ensures From(Some(ToLower(s))) == From(Some(s))
  {
    TrimOfLower(s);
    ToLowerIdempotent(Trim(s));
  }

  /** `from` ignores leading and trailing blanks and control characters. */
  lemma {:induction false} FromIgnoresPadding(s: string, left: string, right: string)
    requires AllTrimmed(left) && AllTrimmed(right)
    ensures From(Some(left + s + right)) == From(Some(s))
  {
    TrimPadded(s, left, right);
  }

  // Lower-casing each display name, in two halves to keep each proof small.

  lemma LowerDisplayFirst(c: Category)
    requires c in {FOOD, LODGING, TRANSPORT, ENTERTAINMENT, GROCERIES}
    ensures ToLower(Display(c)) in Synonyms(c)
  {
    match c
    case FOOD => assert ToLower("Food") == "food";
    case LODGING => assert ToLower("Lodging") == "lodging";
    case TRANSPORT => assert ToLower("Transport") == "transport";
    case ENTERTAINMENT => assert ToLower("Entertainment") == "entertainment";
    case GROCERIES => assert ToLower("Groceries") == "groceries";
  }

  lemma LowerDisplaySecond(c: Category)
    requires c in {TUITION, RENT, UTILITIES, HEALTH, OTHER}
    ensures c != OTHER ==> ToLower(Display(c)) in Synonyms(c)
    ensures c == OTHER ==> ToLower(Display(c)) == "other"
  {
    match c
    case TUITION => assert ToLower("Tuition") == "tuition";
    case RENT => assert ToLower("Rent") == "rent";
    case UTILITIES => assert ToLower("Utilities") == "utilities";
    case HEALTH => assert ToLower("Health") == "health";
    case OTHER => assert ToLower("Other") == "other";
  }

  /** Lower-casing a display name gives a label of its own category, except for
      OTHER, whose lower-cased name is "other". */
  lemma LowerDisplay(c: Category)
    ensures c != OTHER ==> ToLower(Display(c)) in Synonyms(c)
    ensures c == OTHER ==> ToLower(Display(c)) == "other"
  {
    if c in {FOOD, LODGING, TRANSPORT, ENTERTAINMENT, GROCERIES} {
      LowerDisplayFirst(c);
    } else {
      LowerDisplaySecond(c);
    }
  }

  /** "other" is not a label: OTHER is reached through the `default` arm. */
  lemma OtherIsUnlisted()
    ensures Lookup("other") == OTHER
  {
  }

  /** No display name starts or ends with a character `trim` strips. */
  lemma DisplayTrimmed(c: Category)
    ensures Trim(Display(c)) == Display(c)
  {
    var d := Display(c);
    assert !IsTrimmed(d[0]) && !IsTrimmed(d[|d| - 1]);
    TrimStartOfClean(d);
    TrimEndOfClean(d);
  }

  /** Every display name is recognised by `from`. */
  lemma {:induction false} FromDisplay(c: Category)
    ensures From(Some(Display(c))) == c
  {
    FromDisplayLooksUp(c);
    LookupLowerDisplay(c);
  }

  /** A display name needs no trimming, so `from` looks up its lower-case form. */
  lemma FromDisplayLooksUp(c: Category)
    ensures From(Some(Display(c))) == Lookup(ToLower(Display(c)))
  {
    DisplayTrimmed(c);
    FromKey(Display(c), ToLower(Display(c)));
  }

  /** The lower-case display name selects its own constant. */
  lemma LookupLowerDisplay(c: Category)
    ensures Lookup(ToLower(Display(c))) == c
  {
    LowerDisplay(c);
    if c == OTHER {
      OtherIsUnlisted();
    } else {
      SynonymSelects(c, ToLower(Display(c)));
    }
  }

  /** Distinct constants have distinct display names. */
  lemma DisplayInjective(c: Category, d: Category)
    requires Display(c) == Display(d)
    ensures c == d
  {
    FromDisplay(c);
    FromDisplay(d);
  }

  lemma FromKey(s: string, key: string)
    requires Trim(s) == s && ToLower(s) == key
    ensures From(Some(s)) == Lookup(key)
  {
  }

  /** Normalising a normalised name changes nothing. */
  lemma {:induction false} NormalizeIdempotent(raw: NullableString)
    ensures Normalize(Some(Normalize(raw))) == Normalize(raw)
  {
    FromDisplay(From(raw));
  }
}
