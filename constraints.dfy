/**
 * The class-validator decorators the request DTOs put on their fields
 * (@IsString, @MinLength, @MaxLength, @IsEmail, @IsOptional), read as
 * predicates on one property of a parsed request body, and the error that
 * `validate` reports for a property that breaks some of them.
 */
module Constraints {

  /** One property of a parsed JSON request body. */
  datatype Value = Undefined | Null | Str(s: string) | NotString

  /** A decorator that constrains a property. */
  datatype Rule = IsString | MinLength(min: nat) | MaxLength(max: nat) | IsEmail

  /** One failing property: its name and the message of every rule it breaks. */
  datatype ValidationError = ValidationError(property: string, constraints: seq<string>)

  /**
   * A simplified e-mail format: exactly one '@', a non-empty local part, no
   * blanks, and a domain with a dot that is neither its first nor its last
   * character.
   */
  predicate EmailFormat(s: string) {
    ' ' !in s &&
    exists at :: 0 < at < |s| && s[at] == '@' && '@' !in s[..at] && DomainFormat(s[at + 1..])
  }

  predicate DomainFormat(d: string) {
    '@' !in d && exists dot :: 0 < dot < |d| - 1 && d[dot] == '.'
  }

  /** The text and emoji presentation selectors, U+FE0E and U+FE0F. */
  predicate IsPresentationSelector(c: char) {
    c == '\U{FE0E}' || c == '\U{FE0F}'
  }

  /**
   * The length @MinLength and @MaxLength compare: the number of code points,
   * not counting the two presentation selectors.
   */
  function ValidatorLength(s: string): (n: nat)
    ensures n <= |s|
  {
    if |s| == 0 then 0
    else (if IsPresentationSelector(s[0]) then 0 else 1) + ValidatorLength(s[1..])
  }

  /** The validator's length is the plain length exactly when the string holds no presentation selector. */
  lemma {:induction false} ValidatorLengthPlain(s: string)
    ensures ValidatorLength(s) == |s| <==> forall i :: 0 <= i < |s| ==> !IsPresentationSelector(s[i])
  {
    if |s| > 0 {
      ValidatorLengthPlain(s[1..]);
      assert forall i :: 1 <= i < |s| ==> s[i] == s[1..][i - 1];
    }
  }

  /** Each presentation selector makes the validator's length one less than the plain length. */
  lemma {:induction false} ValidatorLengthAppendSelector(s: string, c: char)
    requires IsPresentationSelector(c)
    ensures ValidatorLength(s + [c]) == ValidatorLength(s)
  {
    if |s| > 0 {
      assert (s + [c])[1..] == s[1..] + [c];
      ValidatorLengthAppendSelector(s[1..], c);
    } else {
      assert (s + [c])[1..] == [];
    }
  }

  /** Whether the value of a property satisfies one rule; length rules and @IsEmail fail on a non-string. */
  predicate Holds(rule: Rule, v: Value) {
    match rule
    case IsString => v.Str?
    case MinLength(min) => v.Str? && ValidatorLength(v.s) >= min
    case MaxLength(max) => v.Str? && ValidatorLength(v.s) <= max
    case IsEmail => v.Str? && EmailFormat(v.s)
  }

  /** @IsOptional() switches every rule of the property off when its value is undefined or null. */
  predicate Skipped(optional: bool, v: Value) {
    optional && (v.Undefined? || v.Null?)
  }

  function DigitChar(d: nat): char
    requires d < 10
  {
    "0123456789"[d]
  }

  function NatToString(n: nat): string
    decreases n
  {
    if n < 10 then [DigitChar(n)] else NatToString(n / 10) + [DigitChar(n % 10)]
  }

  /** The library's default message for a broken rule. */
  function Message(rule: Rule, property: string): string {
    match rule
    case IsString => property + " must be a string"
    case MinLength(min) => property + " must be longer than or equal to " + NatToString(min) + " characters"
    case MaxLength(max) => property + " must be shorter than or equal to " + NatToString(max) + " characters"
    case IsEmail => property + " must be an email"
  }

  /** The messages of the rules `v` breaks, in the order the rules are given. */
  function Broken(rules: seq<Rule>, v: Value, property: string): (messages: seq<string>)
    ensures |messages| <= |rules|
    ensures messages == [] <==> forall r :: r in rules ==> Holds(r, v)
  {
    if |rules| == 0 then []
    else
      (if Holds(rules[0], v) then [] else [Message(rules[0], property)]) + Broken(rules[1..], v, property)
  }

  /**
   * What `validate` reports for one property: nothing when the property is
   * optional and missing or every rule holds, otherwise one error that
   * lists the broken rules.
   */
  function PropertyErrors(property: string, v: Value, optional: bool, rules: seq<Rule>): (errors: seq<ValidationError>)
    ensures errors == [] <==> Skipped(optional, v) || forall r :: r in rules ==> Holds(r, v)
    ensures |errors| <= 1
    ensures errors != [] ==> errors[0].property == property && errors[0].constraints != []
  {
    if Skipped(optional, v) then []
    else
      var messages := Broken(rules, v, property);
      if messages == [] then [] else [ValidationError(property, messages)]
  }
}
