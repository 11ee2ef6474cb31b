/**
 * The embed settings group (src/components/settings/EmbedsSettings.tsx): the padding text field
 * accepts what `parseInt` reads as a non-negative integer and ignores anything else; the two
 * toggles set their own flag. Every accepted change is saved.
 *
 * `parseInt` is modelled after the ECMAScript definition with no radix given: leading white space
 * is skipped, one sign is read, a `0x`/`0X` prefix selects base 16, and the longest run of digits
 * that follows is the value (no digits: NaN, here None).
 */
module EmbedSettings {
  import opened Wrappers

  /** The ECMAScript white space and line terminator characters. */
  predicate IsJsWhitespace(c: char) {
    c == ' ' || c == '\t' || c == '\n' || c == '\r' || c == 11 as char || c == 12 as char ||
    c == 0xA0 as char || c == 0x1680 as char || (0x2000 as char <= c <= 0x200A as char) ||
    c == 0x2028 as char || c == 0x2029 as char || c == 0x202F as char || c == 0x205F as char ||
    c == 0x3000 as char || c == 0xFEFF as char
  }

  function TrimStart(s: string): (r: string)
    ensures |r| <= |s| && r == s[|s| - |r|..]
    ensures r == [] || !IsJsWhitespace(r[0])
  {
    if s != [] && IsJsWhitespace(s[0]) then TrimStart(s[1..]) else s
  }

  /** The value of a digit character in bases up to 36, letters in either case. */
  function DigitValue(c: char): Option<nat> {
    if '0' <= c <= '9' then Some(c as nat - '0' as nat)
    else if 'a' <= c <= 'z' then Some(c as nat - 'a' as nat + 10)
    else if 'A' <= c <= 'Z' then Some(c as nat - 'A' as nat + 10)
    else None
  }

  predicate IsDigit(c: char, radix: nat) {
    DigitValue(c).Some? && DigitValue(c).value < radix
  }

  /** The length of the run of digits at the start of `s`. */
  function DigitRun(s: string, radix: nat): (n: nat)
    ensures n <= |s|
    ensures forall k :: 0 <= k < n ==> IsDigit(s[k], radix)
    ensures n < |s| ==> !IsDigit(s[n], radix)
  {
    if s != [] && IsDigit(s[0], radix) then 1 + DigitRun(s[1..], radix) else 0
  }

  /** The number a run of digits denotes, most significant first. */
  function DigitsValue(ds: string, radix: nat): nat
    requires forall k :: 0 <= k < |ds| ==> IsDigit(ds[k], radix)
  {
    if ds == [] then 0
    else
      var init, last := ds[..|ds| - 1], ds[|ds| - 1];
      assert forall k :: 0 <= k < |init| ==> init[k] == ds[k];
      assert IsDigit(last, radix);
      var high: nat := DigitsValue(init, radix);
      NatProduct(high, radix);
      high * radix + DigitValue(last).value
  }

  lemma NatProduct(a: nat, b: nat)
    ensures a * b >= 0
  {
  }

  predicate HasHexPrefix(s: string) {
    |s| >= 2 && s[0] == '0' && (s[1] == 'x' || s[1] == 'X')
  }

  /** The value of the run of digits at the start of `v`, or None when there is none. */
  function LeadingValue(v: string, radix: nat): Option<nat> {
    var n := DigitRun(v, radix);
    if n == 0 then None else Some(DigitsValue(v[..n], radix))
  }

  /** The magnitude after the sign: base 16 after a `0x`/`0X` prefix, base 10 otherwise. */
  function Magnitude(u: string): Option<nat> {
    if HasHexPrefix(u) then LeadingValue(u[2..], 16) else LeadingValue(u, 10)
  }

  predicate HasSign(t: string) {
    t != [] && (t[0] == '-' || t[0] == '+')
  }

  /** `parseInt(s)`, None standing for NaN. */
  function ParseInt(s: string): Option<int> {
    var t := TrimStart(s);
    var m := Magnitude(if HasSign(t) then t[1..] else t);
    if m.None? then None
    else if t != [] && t[0] == '-' then Some(-(m.value as int))
    else Some(m.value)
  }

  /** The decimal text of a number, as the field shows the stored padding. */
  function Show(n: nat): (r: string)
    ensures r != []
    ensures forall k :: 0 <= k < |r| ==> '0' <= r[k] <= '9'
  {
    if n < 10 then [('0' as nat + n) as char] else Show(n / 10) + [('0' as nat + n % 10) as char]
  }

  /** The decimal digits of `n` denote `n`. */
  lemma {:induction false} ShowValue(n: nat)
    ensures forall k :: 0 <= k < |Show(n)| ==> IsDigit(Show(n)[k], 10)
    ensures DigitsValue(Show(n), 10) == n
  {
    if n >= 10 {
      ShowValue(n / 10);
      var s := Show(n);
      assert s[..|s| - 1] == Show(n / 10);
    }
  }

  /** The digit run of the decimal text of `n` followed by anything not starting with a digit. */
  lemma {:induction false} ShowRun(n: nat, rest: string)
    requires rest == [] || !IsDigit(rest[0], 10)
    ensures DigitRun(Show(n) + rest, 10) == |Show(n)|
  {
    var s := Show(n) + rest;
    var d := DigitRun(s, 10);
    ShowValue(n);
    if rest != [] {
      assert s[|Show(n)|] == rest[0];
    }
    forall k | 0 <= k < |Show(n)| ensures IsDigit(s[k], 10) {
      assert s[k] == Show(n)[k];
    }
    if d < |Show(n)| {
      assert false;
    } else if d > |Show(n)| {
      assert false;
    }
  }

  /** Text that starts with a decimal digit and no base-16 prefix reads as its leading digits. */
  lemma ParseIntDecimal(v: string)
    requires v != [] && IsDigit(v[0], 10) && !HasHexPrefix(v)
    ensures Magnitude(v).Some?
    ensures ParseInt(v) == Some(Magnitude(v).value as int)
  {
    assert !IsJsWhitespace(v[0]);
    assert TrimStart(v) == v;
  }

  /** The same text after a minus sign reads as the negated number. */
  lemma ParseIntNegated(v: string, m: nat)
    requires v != [] && IsDigit(v[0], 10) && !HasHexPrefix(v)
    requires Magnitude(v) == Some(m)
    ensures ParseInt("-" + v) == Some(-(m as int))
  {
    var m := "-" + v;
    assert !IsJsWhitespace(m[0]);
    assert TrimStart(m) == m;
    assert m[1..] == v;
  }

  /**
   * `parseInt` reads back the number the field shows, also when text follows that starts with
   * neither a digit nor an `x` (after a lone 0 that would make a base-16 prefix).
   */
  lemma {:induction false} ParseIntReadsShow(n: nat, rest: string)
    requires rest == [] || (!IsDigit(rest[0], 10) && rest[0] != 'x' && rest[0] != 'X')
    ensures ParseInt(Show(n) + rest) == Some(n)
  {
    ShowStart(n, rest);
    ShowMagnitude(n, rest);
    ParseIntDecimal(Show(n) + rest);
  }

  /** A minus sign in front of the shown number reads as the negative number. */
  lemma {:induction false} ParseIntReadsNegativeShow(n: nat, rest: string)
    requires rest == [] || (!IsDigit(rest[0], 10) && rest[0] != 'x' && rest[0] != 'X')
    ensures ParseInt("-" + (Show(n) + rest)) == Some(-(n as int))
  {
    var s := Show(n) + rest;
    ShowStart(n, rest);
    ShowMagnitude(n, rest);
    ParseIntNegated(s, n);
  }

  lemma {:induction false} ShowStart(n: nat, rest: string)
    requires rest == [] || (rest[0] != 'x' && rest[0] != 'X')
    ensures var s := Show(n) + rest; s != [] && IsDigit(s[0], 10) && !HasHexPrefix(s)
  {
    var s := Show(n) + rest;
    assert s[0] == Show(n)[0];
    if |s| >= 2 {
      if |Show(n)| >= 2 {
        assert s[1] == Show(n)[1];
      } else {
        assert s[1] == rest[0];
      }
    }
  }

  lemma {:induction false} ShowMagnitude(n: nat, rest: string)
    requires rest == [] || (!IsDigit(rest[0], 10) && rest[0] != 'x' && rest[0] != 'X')
    ensures Magnitude(Show(n) + rest) == Some(n)
  {
    var s := Show(n) + rest;
    ShowStart(n, rest);
    ShowRun(n, rest);
    ShowValue(n);
    assert s[..|Show(n)|] == Show(n);
  }

  /** Text with no digit after the white space and sign reads as NaN. */
  lemma ParseIntNaN(s: string)
    requires var t := TrimStart(s); t == [] || !(IsDigit(t[0], 10) || t[0] == '-' || t[0] == '+')
    ensures ParseInt(s).None?
  {
  }

  datatype EmbedOptions = EmbedOptions(padding: int, showBg: bool, showBgDots: bool)

  /**
   * The padding a text input sets, None when it is ignored, by the first character after the white
   * space: a decimal digit sets its leading decimal number, a `0x` prefix the base-16 number after
   * it, a `+` the number after it; a `-` is refused unless the number after it is zero; anything
   * else is refused.
   */
  function PaddingInput(value: string): (r: Option<nat>)
    ensures var t := TrimStart(value);
      t != [] && IsDigit(t[0], 10) && !HasHexPrefix(t) ==> r.Some? && r == LeadingValue(t, 10)
    ensures var t := TrimStart(value); HasHexPrefix(t) ==> r == LeadingValue(t[2..], 16)
    ensures var t := TrimStart(value); t != [] && t[0] == '+' ==> r == Magnitude(t[1..])
    ensures var t := TrimStart(value); t != [] && t[0] == '-' ==>
      (r.Some? <==> Magnitude(t[1..]) == Some(0)) && (r.Some? ==> r.value == 0)
    ensures var t := TrimStart(value); t == [] || !(IsDigit(t[0], 10) || t[0] == '-' || t[0] == '+') ==> r.None?
  {
    var p := ParseInt(value);
    if p.None? || p.value < 0 then None else Some(p.value)
  }

  /** The shown padding is accepted as itself; a negative number or text without digits is refused. */
  lemma PaddingInputAcceptsShown(n: nat)
    ensures PaddingInput(Show(n)) == Some(n)
    ensures n > 0 ==> PaddingInput("-" + Show(n)) == None
  {
    ParseIntReadsShow(n, []);
    ParseIntReadsNegativeShow(n, []);
    assert Show(n) + [] == Show(n);
  }

  /** The settings object the handlers edit in place, and the record of what was saved. */
  class SettingsManager {
    var embeds: EmbedOptions
    var saved: seq<EmbedOptions>

    constructor (embeds: EmbedOptions)
      ensures this.embeds == embeds && saved == []
    {
      this.embeds := embeds;
      saved := [];
    }

    method UpdateSettings()
      modifies this`saved
      ensures saved == old(saved) + [embeds]
    {
      saved := saved + [embeds];
    }

    method OnPaddingChange(value: string)
      modifies this
      ensures PaddingInput(value).None? ==> embeds == old(embeds) && saved == old(saved)
      ensures PaddingInput(value).Some? ==>
        embeds == old(embeds).(padding := PaddingInput(value).value) && saved == old(saved) + [embeds]
    {
      var padding := ParseInt(value);
      if padding.None? || padding.value < 0 {
        return;
      }
      embeds := embeds.(padding := padding.value);
      UpdateSettings();
    }

    method OnShowBgChange(value: bool)
      modifies this
      ensures embeds == old(embeds).(showBg := value) && saved == old(saved) + [embeds]
    {
      embeds := embeds.(showBg := value);
      UpdateSettings();
    }

    method OnShowBgDotsChange(value: bool)
      modifies this
      ensures embeds == old(embeds).(showBgDots := value) && saved == old(saved) + [embeds]
    {
      embeds := embeds.(showBgDots := value);
      UpdateSettings();
    }
  }
}
