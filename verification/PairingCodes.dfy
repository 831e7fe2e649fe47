/** The codes a person types to pair a browser: 40 random bits as eight base-32 digits. */
module PairingCodes {
  import opened Seqs
  import opened Whitespace

  const ALPHABET := "0123456789ABCDEFGHJKMNPQRSTVWXYZ"

  /** The eight digits of a 40-bit value, most significant first. */
  function Digits(value: nat, count: nat): (r: string)
    ensures |r| == count
    decreases count
  {
    if count == 0 then "" else Digits(value / 32, count - 1) + [ALPHABET[value % 32]]
  }

  /** `pairingCode`, from its random bytes taken as one number. */
  method PairingCode(random: nat) returns (result: string)
    requires random < 0x100_0000_0000
    ensures result == Digits(random, 8)
  {
    var value := random;
    result := "";
    var index := 0;
    while index < 8
      invariant 0 <= index <= 8
      invariant Digits(random, 8) == Digits(value, 8 - index) + result
    {
      result := [ALPHABET[value % 32]] + result;
      value := value / 32;
      index := index + 1;
    }
  }

  /** The number a code stands for. */
  function Value(code: string): nat {
    if code == "" then 0 else 32 * Value(code[..|code| - 1]) + FirstAt(ALPHABET, code[|code| - 1])
  }

  /** The alphabet is in character order, so no letter occurs twice. */
  lemma AlphabetAscends()
    ensures forall i :: 0 <= i < 31 ==> ALPHABET[i] < ALPHABET[i + 1]
  {}

  lemma {:induction false} AscendingIsDistinct(s: string, i: nat, j: nat)
    requires i < j < |s| && forall k :: 0 <= k < |s| - 1 ==> s[k] < s[k + 1]
    ensures s[i] < s[j]
    decreases j
  {
    if i < j - 1 {
      AscendingIsDistinct(s, i, j - 1);
    }
    assert s[j - 1] < s[j - 1 + 1];
  }

  lemma FirstOfDistinct(alphabet: string, k: nat)
    requires k < |alphabet| && forall i, j :: 0 <= i < j < |alphabet| ==> alphabet[i] != alphabet[j]
    ensures FirstAt(alphabet, alphabet[k]) == k
  {}

  function Power(count: nat): nat {
    if count == 0 then 1 else 32 * Power(count - 1)
  }

  lemma {:induction false} DigitsHaveValue(value: nat, count: nat)
    requires value < Power(count)
    ensures Value(Digits(value, count)) == value
    decreases count
  {
    if count > 0 {
      DigitsHaveValue(value / 32, count - 1);
      AlphabetAscends();
      forall i, j | 0 <= i < j < |ALPHABET| ensures ALPHABET[i] != ALPHABET[j] {
        AscendingIsDistinct(ALPHABET, i, j);
      }
      FirstOfDistinct(ALPHABET, value % 32);
      var code := Digits(value, count);
      assert code[..|code| - 1] == Digits(value / 32, count - 1);
    }
  }

  /** Different random bytes give different codes: the code keeps all 40 bits. */
  lemma CodesAreDistinct(a: nat, b: nat)
    requires a < 0x100_0000_0000 && b < 0x100_0000_0000 && Digits(a, 8) == Digits(b, 8)
    ensures a == b
  {
    assert Power(8) == 0x100_0000_0000 by {
      assert Power(4) == 0x10_0000;
    }
    DigitsHaveValue(a, 8);
    DigitsHaveValue(b, 8);
  }

  function Upper(c: char): char {
    if 'a' <= c <= 'z' then c - 'a' + 'A' else c
  }

  function Dropped(s: string): string {
    if s == "" then ""
    else (if IsSpace(s[0]) || s[0] == '-' then "" else [s[0]]) + Dropped(s[1..])
  }

  function Uppered(s: string): (r: string)
    ensures |r| == |s| && forall i :: 0 <= i < |s| ==> r[i] == Upper(s[i])
  {
    if s == "" then "" else [Upper(s[0])] + Uppered(s[1..])
  }

  /** `normalizePairingCode` on ASCII input; trimming is subsumed by dropping every space. */
  function Normalize(s: string): string {
    Dropped(Uppered(s))
  }

  const SMALL := "abcdefghijklmnopqrstuvwxyz"
  const CAPITAL := "ABCDEFGHIJKLMNOPQRSTUVWXYZ"

  /** A typed character stands for a character of the code: a small letter for its capital,
      any other for itself. */
  predicate StandsFor(typed: char, c: char) {
    if typed in SMALL then exists i :: 0 <= i < |SMALL| && SMALL[i] == typed && CAPITAL[i] == c else typed == c
  }

  /** A person's spelling of a code: any case, spaces and hyphens anywhere. */
  predicate Spells(typed: string, code: string)
    decreases |typed|
  {
    if typed == "" then code == ""
    else if IsSpace(typed[0]) || typed[0] == '-' then Spells(typed[1..], code)
    else code != "" && StandsFor(typed[0], code[0]) && Spells(typed[1..], code[1..])
  }

  lemma UpperIff(typed: char, c: char)
    ensures Upper(typed) == c <==> StandsFor(typed, c)
  {
    assert forall i :: 0 <= i < |SMALL| ==> SMALL[i] == 'a' + i as char && CAPITAL[i] == 'A' + i as char;
    if 'a' <= typed <= 'z' {
      var i := (typed - 'a') as int;
      assert SMALL[i] == typed && CAPITAL[i] == Upper(typed);
    }
  }

  /** Normalizing accepts exactly the spellings of a code. */
  lemma {:induction false} NormalizeFindsTheCode(typed: string, code: string)
    ensures Normalize(typed) == code <==> Spells(typed, code)
    decreases |typed|
  {
    if typed != "" {
      assert Uppered(typed)[1..] == Uppered(typed[1..]);
      var rest := Normalize(typed[1..]);
      if IsSpace(typed[0]) || typed[0] == '-' {
        NormalizeFindsTheCode(typed[1..], code);
      } else {
        assert Normalize(typed) == [Upper(typed[0])] + rest;
        if code != "" {
          UpperIff(typed[0], code[0]);
          NormalizeFindsTheCode(typed[1..], code[1..]);
          assert code == [code[0]] + code[1..];
          if Normalize(typed) == code { assert rest == code[1..]; }
        }
      }
    }
  }
}
