/** The class-validator decorators the DTOs use, on request-body values as
    JavaScript sees them. `IsEmail` is validator.js's address check, which
    is not modelled: the DTO checks receive it as a parameter. */
module Validators {

  /** A request-body field: missing, null, a string, or any other JSON value. */
  datatype JsValue = Undefined | Null | Str(s: string) | NonString

  /** `@IsString()` */
  predicate IsString(v: JsValue)
  {
    v.Str?
  }

  /** `@IsNotEmpty()`: anything but '', null and undefined. */
  predicate IsNotEmpty(v: JsValue)
  {
    v != Str("") && v != Null && v != Undefined
  }

  /** `@IsOptional()`: a null or undefined field skips every other check. */
  predicate IsMissing(v: JsValue)
  {
    v == Null || v == Undefined
  }

  /** `@IsEmail()`: only strings can pass. */
  predicate IsEmail(v: JsValue, isEmail: string -> bool)
  {
    v.Str? && isEmail(v.s)
  }

  /** The variation selectors validator.js leaves out of a length. */
  predicate IsPresentationMark(c: char)
  {
    c == '\U{FE0E}' || c == '\U{FE0F}'
  }

  /** The length validator.js's isLength measures: code points, not counting
      the variation selectors U+FE0E and U+FE0F. */
  function ValidatorLength(s: string): (n: nat)
    ensures n <= |s|
    ensures n == |s| - |MarkPositions(s)|
    ensures (forall i :: 0 <= i < |s| ==> !IsPresentationMark(s[i])) ==> n == |s|
  {
    if s == [] then 0
    else
      MarkPositionsStep(s);
      ValidatorLength(s[..|s| - 1]) + (if IsPresentationMark(s[|s| - 1]) then 0 else 1)
  }

  /** The positions of `s` that hold a variation selector. */
  ghost function MarkPositions(s: string): set<int>
  {
    set i | 0 <= i < |s| && IsPresentationMark(s[i])
  }

  /** The positions of a non-empty string are those of its front, plus the
      last position when it holds a variation selector. */
  lemma MarkPositionsStep(s: string)
    requires s != []
    ensures |MarkPositions(s)| ==
      |MarkPositions(s[..|s| - 1])| + (if IsPresentationMark(s[|s| - 1]) then 1 else 0)
  {
    var front := MarkPositions(s[..|s| - 1]);
    var last := if IsPresentationMark(s[|s| - 1]) then {|s| - 1} else {};
    assert MarkPositions(s) == front + last;
    assert |s| - 1 !in front;
  }

  /** Lengths add up over concatenation. */
  lemma {:induction false} ValidatorLengthAppend(s: string, t: string)
    ensures ValidatorLength(s + t) == ValidatorLength(s) + ValidatorLength(t)
    decreases |t|
  {
    if t == [] {
      assert s + t == s;
    } else {
      var t' := t[..|t| - 1];
      assert (s + t)[..|s + t| - 1] == s + t';
      assert (s + t)[|s + t| - 1] == t[|t| - 1];
      ValidatorLengthAppend(s, t');
    }
  }

  /** `@MinLength(n)` */
  predicate MinLength(v: JsValue, n: nat)
  {
    v.Str? && ValidatorLength(v.s) >= n
  }

  /** `@MaxLength(n)` */
  predicate MaxLength(v: JsValue, n: nat)
  {
    v.Str? && ValidatorLength(v.s) <= n
  }

  /** `@Length(min, max)` */
  predicate Length(v: JsValue, min: nat, max: nat)
  {
    v.Str? && min <= ValidatorLength(v.s) <= max
  }

  /** A minimum length has no upper bound: what passes keeps passing when
      more text is appended. */
  lemma MinLengthExtends(s: string, t: string, n: nat)
    requires MinLength(Str(s), n)
    ensures MinLength(Str(s + t), n)
  {
    ValidatorLengthAppend(s, t);
  }

  /** A maximum length is kept by every prefix. */
  lemma MaxLengthPrefix(s: string, k: nat, n: nat)
    requires MaxLength(Str(s), n) && k <= |s|
    ensures MaxLength(Str(s[..k]), n)
  {
    var front, rest := s[..k], s[k..];
    assert front + rest == s;
    ValidatorLengthAppend(front, rest);
  }

  /** `\w`, without the Unicode flag. */
  predicate IsWordChar(c: char)
  {
    ('A' <= c <= 'Z') || ('a' <= c <= 'z') || ('0' <= c <= '9') || c == '_'
  }

  /** `[\w.%+-]`, which is also `[a-zA-Z0-9._%+-]`. */
  predicate InLocalClass(c: char)
  {
    IsWordChar(c) || c == '.' || c == '%' || c == '+' || c == '-'
  }

  /** `[A-Za-z0-9.-]` */
  predicate InDomainClass(c: char)
  {
    ('A' <= c <= 'Z') || ('a' <= c <= 'z') || ('0' <= c <= '9') || c == '.' || c == '-'
  }

  predicate AllIn(s: string, cls: char -> bool)
  {
    forall i :: 0 <= i < |s| ==> cls(s[i])
  }

  /** A character outside the class occurs nowhere in a string of the class. */
  lemma AllInExcludes(s: string, cls: char -> bool, c: char)
    requires AllIn(s, cls) && !cls(c)
    ensures c !in s
  {
  }

  /** The first position of `c` in `s`, or `|s|` when there is none. */
  function IndexOf(s: string, c: char): (i: nat)
    ensures i <= |s|
    ensures i < |s| ==> s[i] == c
    ensures forall j :: 0 <= j < i ==> s[j] != c
  {
    if s == [] then 0
    else if s[0] == c then 0
    else 1 + IndexOf(s[1..], c)
  }
}
