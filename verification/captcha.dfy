/** The client-side CAPTCHA: a six-character code drawn from an alphabet by
    six calls to `Math.random()`. The sign-in page uses upper-case letters and
    digits; the reset-password page adds the lower-case letters. Each draw
    `Math.floor(Math.random() * chars.length)` is given as an index `picks[i]`
    below the alphabet's length. */
module Captcha {
  import opened Text

  const CaptchaLength: nat := 6

  /** The code both pages show before the first refresh. */
  const InitialCode: string := "XA7B9C"

  /** A run of `n` consecutive characters starting at `first`. */
  function CharRange(first: char, n: nat): (r: string)
    requires first as int + n <= 0xD800
    ensures |r| == n
    ensures forall i :: 0 <= i < n ==> r[i] as int == first as int + i
  {
    seq(n, i requires 0 <= i < n => (first as int + i) as char)
  }

  const UpperLetters: string := CharRange('A', 26)
  const DigitChars: string := CharRange('0', 10)
  const LowerLetters: string := CharRange('a', 26)

  /** `chars` of the sign-in page. */
  const AuthAlphabet: string := UpperLetters + DigitChars
  /** `chars` of the reset-password page. */
  const ResetAlphabet: string := UpperLetters + DigitChars + LowerLetters

  lemma UpperLettersAsWritten()
    ensures UpperLetters == "ABCDEFGHIJKLMNOPQRSTUVWXYZ"
  {
  }

  lemma DigitCharsAsWritten()
    ensures DigitChars == "0123456789"
  {
  }

  lemma LowerLettersAsWritten()
    ensures LowerLetters == "abcdefghijklmnopqrstuvwxyz"
  {
  }

  /** The alphabets spelled out as the pages write them. */
  lemma AlphabetsAsWritten()
    ensures AuthAlphabet == "ABCDEFGHIJKLMNOPQRSTUVWXYZ0123456789"
    ensures ResetAlphabet == "ABCDEFGHIJKLMNOPQRSTUVWXYZ0123456789abcdefghijklmnopqrstuvwxyz"
  {
    UpperLettersAsWritten();
    DigitCharsAsWritten();
    LowerLettersAsWritten();
  }

  predicate ValidPicks(chars: string, picks: seq<nat>) {
    |picks| == CaptchaLength && forall i :: 0 <= i < |picks| ==> picks[i] < |chars|
  }

  /** `refreshCaptcha`: six draws, each appending `chars.charAt(pick)`. */
  method RefreshCaptcha(chars: string, picks: seq<nat>) returns (code: string)
    requires ValidPicks(chars, picks)
    ensures |code| == CaptchaLength
    ensures forall i :: 0 <= i < CaptchaLength ==> code[i] == chars[picks[i]]
  {
    code := "";
    for i := 0 to CaptchaLength
      invariant |code| == i
      invariant forall j :: 0 <= j < i ==> code[j] == chars[picks[j]]
    {
      code := code + [chars[picks[i]]];
    }
  }

  /** Position of `c` in `chars`, when it occurs. */
  function IndexOf(chars: string, c: char): (k: nat)
    requires c in chars
    ensures k < |chars| && chars[k] == c
  {
    if chars[0] == c then 0 else 1 + IndexOf(chars[1..], c)
  }

  predicate OverAlphabet(code: string, chars: string) {
    forall i :: 0 <= i < |code| ==> code[i] in chars
  }

  /** Every six-character code over the alphabet is produced by some draws:
      the generator can reach the whole code space. */
  lemma EveryCodeReachable(chars: string, code: string)
    requires |code| == CaptchaLength && OverAlphabet(code, chars)
    ensures exists picks :: ValidPicks(chars, picks) && forall i :: 0 <= i < CaptchaLength ==> code[i] == chars[picks[i]]
  {
    var picks := seq(CaptchaLength, i requires 0 <= i < CaptchaLength => IndexOf(chars, code[i]));
    assert ValidPicks(chars, picks);
  }

  /** The sign-in alphabet is exactly the upper-case letters and digits. */
  lemma AuthAlphabetCharacterized(c: char)
    ensures c in AuthAlphabet <==> IsAsciiUpper(c) || IsDigit(c)
  {
    if IsAsciiUpper(c) {
      assert AuthAlphabet[c as int - 'A' as int] == c;
    } else if IsDigit(c) {
      assert AuthAlphabet[26 + c as int - '0' as int] == c;
    }
  }

  /** The reset-password alphabet adds the lower-case letters. */
  lemma ResetAlphabetCharacterized(c: char)
    ensures c in ResetAlphabet <==> IsAsciiUpper(c) || IsDigit(c) || IsAsciiLower(c)
  {
    if IsAsciiUpper(c) {
      assert ResetAlphabet[c as int - 'A' as int] == c;
    } else if IsDigit(c) {
      assert ResetAlphabet[26 + c as int - '0' as int] == c;
    } else if IsAsciiLower(c) {
      assert ResetAlphabet[36 + c as int - 'a' as int] == c;
    }
  }

  /** The initial code is one the generator could have drawn: it lies in the
      sign-in alphabet, and so also in the reset-password one. */
  lemma InitialCodeReachable()
    ensures exists picks ::
              ValidPicks(AuthAlphabet, picks) && forall i :: 0 <= i < CaptchaLength ==> InitialCode[i] == AuthAlphabet[picks[i]]
    ensures OverAlphabet(InitialCode, ResetAlphabet)
  {
    forall i | 0 <= i < |InitialCode| ensures InitialCode[i] in AuthAlphabet && InitialCode[i] in ResetAlphabet {
      AuthAlphabetCharacterized(InitialCode[i]);
      ResetAlphabetCharacterized(InitialCode[i]);
    }
    EveryCodeReachable(AuthAlphabet, InitialCode);
  }

  /** A sign-in code never contains a lower-case letter, so it is unchanged by
      lower-casing; the reset alphabet has codes for which that fails. */
  lemma AuthCodesHaveNoLowerCase(picks: seq<nat>, code: string)
    requires ValidPicks(AuthAlphabet, picks)
    requires |code| == CaptchaLength && forall i :: 0 <= i < CaptchaLength ==> code[i] == AuthAlphabet[picks[i]]
    ensures forall i :: 0 <= i < |code| ==> !IsAsciiLower(code[i])
  {
    forall i | 0 <= i < |code| ensures !IsAsciiLower(code[i]) {
      AuthAlphabetCharacterized(code[i]);
    }
  }
}
