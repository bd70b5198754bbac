/** The field rules of lib/validators.ts: the two-decimal currency pattern,
    the product schema, and the sign-in and sign-up forms. A schema yields
    the list of issues Zod would report; an empty list means it parses. */
module Validators {

  import opened Common
  import Money

  /** A Zod issue: the field it is attached to and its message. */
  datatype Issue = Issue(path: string, message: string)

  /** The regular expression `^\d+(\.\d{2})?$`: one or more digits,
      optionally followed by a point and exactly two digits. */
  predicate IsCurrencyText(s: string) {
    || (|s| >= 1 && Money.AllDigits(s))
    || (|s| >= 4 && s[|s| - 3] == '.' && Money.AllDigits(s[..|s| - 3]) && Money.AllDigits(s[|s| - 2..]))
  }

  /** The amount in cents a currency text stands for. */
  function CurrencyCents(s: string): (r: Option<int>)
    ensures r.Some? <==> IsCurrencyText(s)
    ensures r.Some? ==> r.value >= 0
  {
    if |s| >= 1 && Money.AllDigits(s) then
      Some(Money.DigitsValue(s) * 100)
    else if |s| >= 4 && s[|s| - 3] == '.' && Money.AllDigits(s[..|s| - 3]) && Money.AllDigits(s[|s| - 2..]) then
      Some(Money.DigitsValue(s[..|s| - 3]) * 100 + Money.DigitsValue(s[|s| - 2..]))
    else
      None
  }

  /** The `currency` refinement: the price, read as a number and formatted by
      `formatNumberWithDecimalPlaces` (given here as `formatted`, since that
      helper is not part of this model), must match the pattern. */
  predicate CurrencyOk(value: string, formatted: string -> string) {
    IsCurrencyText(formatted(value))
  }

  /** Every non-negative `toFixed(2)` amount passes the pattern and reads
      back as the same number of cents. */
  lemma FixedRoundTrip(cents: nat)
    ensures IsCurrencyText(Money.ToFixed2(cents))
    ensures CurrencyCents(Money.ToFixed2(cents)) == Some(cents)
  {
    var whole := Money.NatToDigits(cents / 100);
    var s := Money.ToFixed2(cents);
    var d1, d2 := cents / 10 % 10, cents % 10;
    assert s == whole + "." + [Money.DigitChar(d1), Money.DigitChar(d2)];
    assert s[..|s| - 3] == whole;
    assert s[|s| - 2..] == [Money.DigitChar(d1), Money.DigitChar(d2)];
    assert !Money.IsDigit(s[|s| - 3]);
    Money.DigitsRoundTrip(cents / 100);
    var tail := s[|s| - 2..];
    assert tail[..1] == [Money.DigitChar(d1)];
    assert Money.DigitsValue(tail[..1]) == d1 by {
      assert tail[..1][..0] == [];
    }
    assert Money.DigitsValue(tail) == d1 * 10 + d2;
  }

  /** A negative amount never passes: `toFixed(2)` puts a minus sign first. */
  lemma NegativeRejected(cents: int)
    requires cents < 0
    ensures !IsCurrencyText(Money.ToFixed2(cents))
  {
    var s := Money.ToFixed2(cents);
    assert s[0] == '-';
    assert |s| >= 4 ==> s[..|s| - 3][0] == '-';
  }

  /** How the pattern treats a few prices. */
  lemma CurrencyExamples()
    ensures IsCurrencyText("60.00") && IsCurrencyText("30")
    ensures !IsCurrencyText("1.5") && !IsCurrencyText("1.234") && !IsCurrencyText(".50") && !IsCurrencyText("")
  {
    assert !Money.IsDigit("1.5"[1]);
    assert !Money.IsDigit("1.234"[1]) && "1.234"[2] != '.';
    assert !Money.IsDigit(".50"[0]) && ".50"[0] != '0';
  }

  // ---------------------------------------------------------------------
  // Schemas
  // ---------------------------------------------------------------------

  /** What the product form submits. `stock` is already a number. */
  datatype ProductInput = ProductInput(
    name: string,
    slug: string,
    category: string,
    brand: string,
    description: string,
    stock: int,
    images: seq<string>,
    isFeatured: bool,
    banner: Option<string>,
    price: string)

  function MinLength(path: string, value: string, min: nat, message: string): seq<Issue> {
    if |value| < min then [Issue(path, message)] else []
  }

  /** `insertProductSchema`. `banner` may be null, so it has no rule. */
  function ProductIssues(p: ProductInput, formatted: string -> string): (r: seq<Issue>)
    ensures r == [] <==>
      && |p.name| >= 3 && |p.slug| >= 3 && |p.category| >= 3 && |p.brand| >= 3
      && |p.description| >= 3 && |p.images| >= 1 && CurrencyOk(p.price, formatted)
    ensures |p.images| == 0 ==> Issue("images", "Product must have at least one image") in r
  {
    MinLength("name", p.name, 3, "Name must be at least 3 characters long")
    + MinLength("slug", p.slug, 3, "Slug must be at least 3 characters long")
    + MinLength("category", p.category, 3, "Category must be at least 3 characters long")
    + MinLength("brand", p.brand, 3, "Brand must be at least 3 characters long")
    + MinLength("description", p.description, 3, "Description must be at least 3 characters long")
    + (if |p.images| < 1 then [Issue("images", "Product must have at least one image")] else [])
    + (if CurrencyOk(p.price, formatted) then [] else [Issue("price", "Price must have exactly two decimal places")])
  }

  datatype SignInForm = SignInForm(email: string, password: string)

  /** `signInFormSchema`; `isEmail` is Zod's e-mail check. */
  function SignInIssues(f: SignInForm, isEmail: string -> bool): (r: seq<Issue>)
    ensures r == [] <==> isEmail(f.email) && |f.password| >= 6
  {
    (if isEmail(f.email) then [] else [Issue("email", "Invalid email address")])
    + MinLength("password", f.password, 6, "Password must be at least 6 characters long")
  }

  datatype SignUpForm = SignUpForm(name: string, email: string, password: string, confirmPassword: string)

  const PASSWORDS_DIFFER := Issue("confirmPassword", "Passwords do not match")

  /** `signUpFormSchema`: the field rules, then the refinement that the two
      passwords agree, reported on `confirmPassword`. */
  function SignUpIssues(f: SignUpForm, isEmail: string -> bool): (r: seq<Issue>)
    ensures r == [] <==>
      && |f.name| >= 3 && isEmail(f.email) && |f.password| >= 6 && |f.confirmPassword| >= 6
      && f.password == f.confirmPassword
    ensures PASSWORDS_DIFFER in r <==> f.password != f.confirmPassword
  {
    MinLength("name", f.name, 3, "Name must be at least 3 characters long")
    + (if isEmail(f.email) then [] else [Issue("email", "Invalid email address")])
    + MinLength("password", f.password, 6, "Password must be at least 6 characters long")
    + MinLength("confirmPassword", f.confirmPassword, 6, "Confirm password must be at least 6 characters long")
    + (if f.password == f.confirmPassword then [] else [PASSWORDS_DIFFER])
  }
}
