/**
 The cipher of vigenere.js: letters and digits move along one alphabet, in step with a key, outside HTML tags.  An upper
 case key is what `toUpperCase` gives, so it has no letters from a to z.
 */
module Vigenere {

  // The letters and digits in upper case, then in lower case: the digits are there twice.
  const HALF := 36
  const LETTERS := 26

  function Nth(first: char, n: nat): char
    requires first < '{' && n < 26
  {
    (first as int + n) as char
  }

  /** `alphabet.charAt` */
  function AlphabetChar(i: nat): char
    requires i < 2 * HALF
  {
    var j := i % HALF;
    if j >= LETTERS then Nth('0', j - LETTERS) else if i < HALF then Nth('A', j) else Nth('a', j)
  }

  /** `alphabet.indexOf` */
  function IndexOf(c: char): int {
    if 'A' <= c <= 'Z' then c as int - 'A' as int
    else if '0' <= c <= '9' then LETTERS + c as int - '0' as int
    else if 'a' <= c <= 'z' then HALF + c as int - 'a' as int
    else -1
  }

  lemma CharAtIndex(c: char)
    requires IndexOf(c) >= 0
    ensures IndexOf(c) < 62 && AlphabetChar(IndexOf(c)) == c
  {
  }

  /** The first place of a character in the alphabet: a digit is found in the upper case half. */
  lemma IndexOfIsFirst(c: char)
    ensures IndexOf(c) >= 0 ==> IndexOf(c) < 62 && AlphabetChar(IndexOf(c)) == c
    ensures forall i: nat :: i < 2 * HALF && AlphabetChar(i) == c ==> 0 <= IndexOf(c) <= i
  {
  }

  // ---------------------------------------------------------------------------------------------
  // The key

  /** The key without the characters that are not in the alphabet. */
  function Normalised(upperKey: string): (key: string) {
    if upperKey == [] then []
    else (if IndexOf(upperKey[0]) < 0 then [] else [upperKey[0]]) + Normalised(upperKey[1..])
  }

  /** What is used in the end: a key that says nothing is replaced. */
  function KeyFor(upperKey: string): (key: string)
    ensures key != []
  {
    if Normalised(upperKey) == [] then "a" else Normalised(upperKey)
  }

  predicate IsUpper(s: string) {
    forall c :: c in s ==> !('a' <= c <= 'z')
  }

  predicate IsKey(key: string) {
    key != [] && forall c :: c in key ==> 0 <= IndexOf(c) <= HALF
  }

  lemma {:induction false} NormalisedIsKey(upperKey: string)
    requires IsUpper(upperKey)
    ensures forall c :: c in Normalised(upperKey) ==> 0 <= IndexOf(c) < HALF
    ensures IsKey(KeyFor(upperKey))
  {
    if upperKey != [] {
      assert upperKey[0] in upperKey;
      assert forall c :: c in upperKey[1..] ==> c in upperKey;
      NormalisedIsKey(upperKey[1..]);
    }
  }

  // ---------------------------------------------------------------------------------------------
  // One character

  predicate IsLowercase(c: char) {
    'a' <= c <= 'z'
  }

  /** Where a character goes in its half of the alphabet. */
  function Moved(c: char, k: char, forward: bool): (j: int)
    requires IndexOf(c) >= 0
    ensures 0 <= j < HALF
  {
    (if forward then IndexOf(c) + IndexOf(k) + HALF else IndexOf(c) - IndexOf(k) + HALF) % HALF
  }

  function Shift(c: char, k: char, forward: bool): char
    requires IndexOf(c) >= 0
  {
    AlphabetChar(Moved(c, k, forward) + if IsLowercase(c) then HALF else 0)
  }

  function Upper(c: char): char {
    if IsLowercase(c) then Nth('A', c as int - 'a' as int) else c
  }

  /** A letter of the lower case that lands on a digit is not known for one any more. */
  predicate LosesCase(c: char, k: char, forward: bool)
    requires IndexOf(c) >= 0
  {
    IsLowercase(c) && Moved(c, k, forward) >= LETTERS
  }

  /** Where a shifted character is found: a digit in the first half, whatever half it was put in. */
  lemma ShiftedIndex(c: char, k: char, forward: bool)
    requires IndexOf(c) >= 0
    ensures var j := Moved(c, k, forward);
            IndexOf(Shift(c, k, forward)) == if IsLowercase(c) && j < LETTERS then j + HALF else j
  {
  }

  lemma MovesBack(x: int, k: int, y: int, forward: bool)
    requires 0 <= x && 0 <= k <= HALF && 0 <= y
    requires y % HALF == (if forward then x + k + HALF else x - k + HALF) % HALF
    ensures (if forward then y - k + HALF else y + k + HALF) % HALF == x % HALF
  {
  }

  /** A character is its place in its half of the alphabet, and its case. */
  lemma PlaceAndCase(c: char)
    requires IndexOf(c) >= 0
    ensures AlphabetChar(IndexOf(c) % HALF + if IsLowercase(c) then HALF else 0) == c
    ensures AlphabetChar(IndexOf(c) % HALF) == Upper(c)
  {
  }

  lemma ShiftedCase(c: char, k: char, forward: bool)
    requires IndexOf(c) >= 0
    ensures IndexOf(Shift(c, k, forward)) >= 0
    ensures IsLowercase(Shift(c, k, forward)) <==> IsLowercase(c) && !LosesCase(c, k, forward)
  {
  }

  lemma ShiftedPlace(c: char, k: char, forward: bool)
    requires IndexOf(c) >= 0 && 0 <= IndexOf(k) <= HALF
    ensures var d := Shift(c, k, forward); IndexOf(d) >= 0 && Moved(d, k, !forward) == IndexOf(c) % HALF
  {
    ShiftedIndex(c, k, forward);
    MovesBack(IndexOf(c), IndexOf(k), IndexOf(Shift(c, k, forward)), forward);
  }

  /** Shifting back gives the character, in upper case if its case was lost. */
  lemma ShiftBack(c: char, k: char, forward: bool)
    requires IndexOf(c) >= 0 && 0 <= IndexOf(k) <= HALF
    ensures var d := Shift(c, k, forward);
            IndexOf(d) >= 0 && Shift(d, k, !forward) == if LosesCase(c, k, forward) then Upper(c) else c
  {
    ShiftedPlace(c, k, forward);
    ShiftedCase(c, k, forward);
    PlaceAndCase(c);
  }

  // ---------------------------------------------------------------------------------------------
  // The text

  /** Within a tag, after so many characters. */
  predicate InTag(s: string, n: nat)
    requires n <= |s|
  {
    n > 0 && (s[n - 1] == '<' || (s[n - 1] != '>' && InTag(s, n - 1)))
  }

  predicate Enciphered(s: string, i: nat)
    requires i < |s|
  {
    !InTag(s, i + 1) && IndexOf(s[i]) >= 0
  }

  /** How many of the first characters are enciphered. */
  function Count(s: string, n: nat): nat
    requires n <= |s|
  {
    if n == 0 then 0 else Count(s, n - 1) + if Enciphered(s, n - 1) then 1 else 0
  }

  /** The place in a key of some length after so many steps; RollIsModulo says what it is. */
  function Roll(n: nat, length: nat): (k: nat)
    requires length > 0
    ensures k < length
  {
    if n < length then n else Roll(n - length, length)
  }

  /** The key letter for a position: that of the number of characters enciphered before it. */
  function KeyAt(s: string, key: string, i: nat): char
    requires i < |s| && key != []
  {
    key[Roll(Count(s, i), |key|)]
  }

  function CipherChar(s: string, key: string, forward: bool, i: nat): char
    requires i < |s| && key != []
  {
    if Enciphered(s, i) then Shift(s[i], KeyAt(s, key, i), forward) else s[i]
  }

  function Cipher(s: string, key: string, forward: bool): (r: string)
    requires key != []
    ensures |r| == |s|
  {
    seq(|s|, i requires 0 <= i < |s| => CipherChar(s, key, forward, i))
  }

  /** `vigenere`, given the key in upper case. */
  function Text(input: string, upperKey: string, forward: bool): string {
    Cipher(input, KeyFor(upperKey), forward)
  }

  // ---------------------------------------------------------------------------------------------
  // Decoding undoes encoding

  lemma ShiftStaysText(c: char, k: char, forward: bool)
    requires IndexOf(c) >= 0
    ensures var d := Shift(c, k, forward); IndexOf(d) >= 0 && d != '<' && d != '>'
  {
  }

  /** The tags stay where they are, and so do the positions that are enciphered. */
  lemma {:induction false} CipherKeepsTags(s: string, key: string, forward: bool, n: nat)
    requires key != [] && n <= |s|
    ensures var r := Cipher(s, key, forward);
            InTag(r, n) == InTag(s, n) && Count(r, n) == Count(s, n)
            && forall i: nat :: i < n ==> Enciphered(r, i) == Enciphered(s, i)
  {
    if n > 0 {
      CipherKeepsTags(s, key, forward, n - 1);
      if IndexOf(s[n - 1]) >= 0 { ShiftStaysText(s[n - 1], KeyAt(s, key, n - 1), forward); }
    }
  }

  /** What comes back at one position. */
  function Returned(s: string, key: string, forward: bool, i: nat): char
    requires i < |s| && key != []
  {
    if Enciphered(s, i) && LosesCase(s[i], KeyAt(s, key, i), forward) then Upper(s[i]) else s[i]
  }

  lemma BackAt(s: string, key: string, forward: bool, i: nat)
    requires IsKey(key) && i < |s|
    ensures Cipher(Cipher(s, key, forward), key, !forward)[i] == Returned(s, key, forward, i)
  {
    var r := Cipher(s, key, forward);
    CipherKeepsTags(s, key, forward, i + 1);
    assert Count(r, i) == Count(s, i) by { CipherKeepsTags(s, key, forward, i); }
    assert KeyAt(s, key, i) in key;
    if Enciphered(s, i) { ShiftBack(s[i], KeyAt(s, key, i), forward); }
  }

  /**
   For every text and every key, deciphering what was enciphered, or the other way round, gives the text back up to the
   case of letters, and exactly so if and only if no lower case letter lands on a digit.
   */
  lemma ThereAndBack(input: string, upperKey: string, forward: bool)
    requires IsUpper(upperKey)
    ensures var key := KeyFor(upperKey);
            var back := Text(Text(input, upperKey, forward), upperKey, !forward);
            && |back| == |input|
            && (forall i :: 0 <= i < |input| ==> Upper(back[i]) == Upper(input[i]))
            && (back == input <==> forall i: nat :: i < |input| && Enciphered(input, i) ==>
                                     !LosesCase(input[i], KeyAt(input, key, i), forward))
  {
    var key := KeyFor(upperKey);
    var back := Text(Text(input, upperKey, forward), upperKey, !forward);
    NormalisedIsKey(upperKey);
    forall i: nat | i < |input| ensures back[i] == Returned(input, key, forward, i) {
      BackAt(input, key, forward, i);
    }
    if back == input {
      forall i: nat | i < |input| && Enciphered(input, i) ensures !LosesCase(input[i], KeyAt(input, key, i), forward) {
        assert back[i] == Returned(input, key, forward, i);
      }
    }
  }

  /** A text without letters of the lower case comes back exactly. */
  lemma UpperTextComesBack(input: string, upperKey: string, forward: bool)
    requires IsUpper(upperKey) && IsUpper(input)
    ensures Text(Text(input, upperKey, forward), upperKey, !forward) == input
  {
    ThereAndBack(input, upperKey, forward);
    forall i: nat | i < |input| && Enciphered(input, i)
      ensures !LosesCase(input[i], KeyAt(input, KeyFor(upperKey), i), forward)
    {
      assert input[i] in input;
    }
  }

  /** A lower case letter does not always: the smallest of many examples. */
  lemma CaseIsLost()
    ensures Text(Text("z", "B", true), "B", false) == "Z"
  {
    assert Normalised("B"[1..]) == [];
    assert KeyFor("B") == "B";
    assert !InTag("z", 1) && Count("z", 0) == 0;
    assert Text("z", "B", true) == "0";
    assert !InTag("0", 1) && Count("0", 0) == 0;
  }

  /** Tags, and characters that are neither letters nor digits, are left alone. */
  lemma OthersUntouched(input: string, upperKey: string, forward: bool, i: nat)
    requires i < |input| && (InTag(input, i + 1) || IndexOf(input[i]) < 0)
    ensures Text(input, upperKey, forward)[i] == input[i]
  {
  }

  lemma ShiftByA(c: char, forward: bool)
    requires IndexOf(c) >= 0
    ensures Shift(c, 'a', forward) == c
  {
    assert IndexOf('a') == HALF;
    assert Moved(c, 'a', forward) == IndexOf(c) % HALF;
  }

  /** A key with no letter and no digit changes nothing. */
  lemma EmptyKeyIsIdentity(input: string, upperKey: string, forward: bool)
    requires Normalised(upperKey) == []
    ensures Text(input, upperKey, forward) == input
  {
    var r := Text(input, upperKey, forward);
    forall i: nat | i < |input| ensures r[i] == input[i] {
      assert KeyAt(input, "a", i) in "a";
      if Enciphered(input, i) { ShiftByA(input[i], forward); }
    }
  }

  // ---------------------------------------------------------------------------------------------
  // Character by character

  const UPPER_CASE := "ABCDEFGHIJKLMNOPQRSTUVWXYZ"
  const DIGITS := "0123456789"
  const LOWER_CASE := "abcdefghijklmnopqrstuvwxyz"

  function Alphabet(): (alphabet: string)
    ensures |alphabet| == 72
  {
    UPPER_CASE + DIGITS + LOWER_CASE + DIGITS
  }

  lemma UpperCaseIs(i: nat)
    requires i < LETTERS
    ensures UPPER_CASE[i] as int == 'A' as int + i
  {
  }

  lemma DigitsAre(i: nat)
    requires i < 10
    ensures DIGITS[i] as int == '0' as int + i
  {
  }

  lemma LowerCaseIs(i: nat)
    requires i < LETTERS
    ensures LOWER_CASE[i] as int == 'a' as int + i
  {
  }

  lemma AlphabetIs(i: nat)
    requires i < 72
    ensures AlphabetChar(i) == Alphabet()[i]
  {
    if i < 26 {
      UpperCaseIs(i);
    } else if i < 36 {
      DigitsAre(i - 26);
    } else if i < 62 {
      LowerCaseIs(i - 36);
    } else {
      DigitsAre(i - 62);
    }
  }

  predicate IsFirstPlace(c: char, i: nat) {
    && i < 72
    && Alphabet()[i] == c
    && forall j: nat :: j < i ==> Alphabet()[j] != c
  }

  /** The index of a character is its first place in the alphabet, if it has one. */
  lemma IndexInAlphabet(c: char)
    ensures IndexOf(c) >= 0 <==> c in Alphabet()
    ensures IndexOf(c) >= 0 ==> IsFirstPlace(c, IndexOf(c))
  {
    IndexOfIsFirst(c);
    if IndexOf(c) >= 0 {
      AlphabetIs(IndexOf(c));
      forall i: nat | i < IndexOf(c) ensures Alphabet()[i] != c { AlphabetIs(i); }
    } else if c in Alphabet() {
      var i :| 0 <= i < |Alphabet()| && Alphabet()[i] == c;
      AlphabetIs(i);
    }
  }

  lemma RoundTheEnd(i: int, n: int, forward: bool)
    ensures (if forward then i + n + HALF else i - n + HALF) % HALF == (if forward then i + n else i - n) % 36
  {
  }

  /** How far into its half of the alphabet a character goes, by the places of it and of the key letter. */
  lemma MovedIs(c: char, k: char, forward: bool)
    requires IndexOf(c) >= 0
    ensures Moved(c, k, forward)
         == (if forward then IndexOf(c) + IndexOf(k) else IndexOf(c) - IndexOf(k)) % 36
  {
    RoundTheEnd(IndexOf(c), IndexOf(k), forward);
  }

  /** The place reached from one place by another, on or back, round the end of the half that the first is in. */
  function Reached(i: nat, n: nat, forward: bool): (j: nat)
    requires i < 72
    ensures j < 72
  {
    (if i < 36 then 0 else 36) + (if forward then i + n else i - n) % 36
  }

  lemma ShiftIs(c: char, k: char, forward: bool)
    requires IndexOf(c) >= 0 && IndexOf(k) >= 0
    ensures Shift(c, k, forward) == AlphabetChar(Reached(IndexOf(c), IndexOf(k), forward))
  {
    MovedIs(c, k, forward);
    LowerCasePlace(c);
  }

  /** A character moves on, or back, in its half by the place of the key letter; digits are in the first. */
  lemma ShiftMoves(c: char, i: nat, k: char, n: nat, forward: bool)
    requires IsFirstPlace(c, i) && IsFirstPlace(k, n)
    ensures IndexOf(c) == i && Shift(c, k, forward) == Alphabet()[Reached(i, n, forward)]
  {
    FirstPlaceIs(c, i);
    FirstPlaceIs(k, n);
    ShiftIs(c, k, forward);
    AlphabetIs(Reached(i, n, forward));
  }

  lemma FirstPlaceIs(c: char, i: nat)
    requires IsFirstPlace(c, i)
    ensures IndexOf(c) == i
  {
    IndexInAlphabet(c);
    IndexOfIsFirst(c);
    AlphabetIs(i);
  }

  lemma LowerCasePlace(c: char)
    requires IndexOf(c) >= 0
    ensures IsLowercase(c) <==> IndexOf(c) >= 36
  {
  }

  /** Within a tag: after an opening bracket that no closing one follows. */
  lemma {:induction false} InTagIff(s: string, n: nat)
    requires n <= |s|
    ensures InTag(s, n) <==> exists i :: 0 <= i < n && s[i] == '<' && forall j :: i < j < n ==> s[j] != '>'
  {
    if n > 0 {
      InTagIff(s, n - 1);
      if InTag(s, n - 1) && s[n - 1] != '>' {
        var i :| 0 <= i < n - 1 && s[i] == '<' && forall j :: i < j < n - 1 ==> s[j] != '>';
        assert s[i] == '<' && forall j :: i < j < n ==> s[j] != '>';
      }
    }
  }

  lemma Regroup(a: string, b: string, c: string, d: string)
    ensures a + (b + c + d) == a + b + c + d
  {
  }

  lemma {:induction false} NormalisedOf(first: string, c: char, rest: string)
    ensures Normalised(first + [c] + rest)
         == Normalised(first) + (if IndexOf(c) >= 0 then [c] else []) + Normalised(rest)
    decreases |first|
  {
    var all := first + [c] + rest;
    if first == [] {
      assert all[1..] == rest && all[0] == c;
    } else {
      assert all[1..] == first[1..] + [c] + rest && all[0] == first[0];
      NormalisedOf(first[1..], c, rest);
      Regroup(if IndexOf(first[0]) < 0 then [] else [first[0]], Normalised(first[1..]),
              if IndexOf(c) >= 0 then [c] else [], Normalised(rest));
    }
  }

  /** What is left of a key: those of its characters that are in the alphabet, in order. */
  lemma NormalisedIs(first: string, c: char, rest: string)
    ensures Normalised(first + [c] + rest)
         == Normalised(first) + (if c in Alphabet() then [c] else []) + Normalised(rest)
  {
    NormalisedOf(first, c, rest);
    IndexInAlphabet(c);
  }

  // ---------------------------------------------------------------------------------------------
  // The program

  /** The loop that drops from the key what is not in the alphabet. */
  method NormaliseKey(upperKey: string) returns (adjusted: string)
    ensures adjusted == Normalised(upperKey)
  {
    adjusted := "";
    var i := 0;
    while i < |upperKey|
      invariant i <= |upperKey|
      invariant adjusted + Normalised(upperKey[i..]) == Normalised(upperKey)
    {
      assert upperKey[i..][1..] == upperKey[i + 1..];
      var keyChar := IndexOf(upperKey[i]);
      if keyChar >= 0 {
        CharAtIndex(upperKey[i]);
        adjusted := adjusted + [AlphabetChar(keyChar)];
      }
      i := i + 1;
    }
    assert adjusted + Normalised(upperKey[i..]) == adjusted;
  }

  lemma {:induction false} Multiple(a: int, b: int, length: int)
    requires length > 0 && a > b
    ensures a * length >= b * length + length
    decreases a - b
  {
    assert a * length == (a - 1) * length + length;
    if a - 1 > b { Multiple(a - 1, b, length); }
  }

  /** Division with remainder is unique. */
  lemma ModUnique(n: int, q: int, r: int, q': int, r': int, length: int)
    requires 0 <= r < length && 0 <= r' < length && n == q * length + r && n == q' * length + r'
    ensures r == r'
  {
    if q > q' {
      Multiple(q, q', length);
    } else if q < q' {
      Multiple(q', q, length);
    }
  }

  /** The key letter is the one at the number of characters enciphered before, modulo the length of the key. */
  lemma {:induction false} RollIsModulo(n: nat, length: nat)
    requires length > 0
    ensures Roll(n, length) == n % length
    decreases n
  {
    if n >= length {
      RollIsModulo(n - length, length);
      var q := (n - length) / length;
      assert (q + 1) * length == q * length + length;
      ModUnique(n, q + 1, (n - length) % length, n / length, n % length, length);
    } else {
      ModUnique(n, 0, n, n / length, n % length, length);
    }
  }

  /** Each character that is enciphered moves by that letter of the key. */
  lemma EncipheredBy(input: string, upperKey: string, forward: bool, i: nat)
    requires i < |input| && Enciphered(input, i)
    ensures var key := KeyFor(upperKey);
            Text(input, upperKey, forward)[i] == Shift(input[i], key[Count(input, i) % |key|], forward)
  {
    RollIsModulo(Count(input, i), |KeyFor(upperKey)|);
  }

  lemma {:induction false} RollsOn(n: nat, length: nat)
    requires length > 0
    ensures Roll(n + 1, length) == if Roll(n, length) + 1 == length then 0 else Roll(n, length) + 1
    decreases n
  {
    if n >= length { RollsOn(n - length, length); }
  }

  /** One step of the key index. */
  method NextKeyIndex(keyIndex: nat, length: nat) returns (next: nat)
    requires keyIndex < length
    ensures next == if keyIndex + 1 == length then 0 else keyIndex + 1
  {
    RollIsModulo(keyIndex + 1, length);
    next := (keyIndex + 1) % length;
  }

  /** The arithmetic of `vigenere` on one character. */
  method Encipher(c: char, k: char, forward: bool) returns (d: char)
    requires IndexOf(c) >= 0 && 0 <= IndexOf(k) <= HALF
    ensures d == Shift(c, k, forward)
  {
    var value := IndexOf(c);
    var lowercase := value >= HALF;
    if forward {
      value := value + IndexOf(k);
    } else {
      value := value - IndexOf(k);
    }
    value := value + HALF;
    if lowercase {
      value := value % HALF + HALF;
    } else {
      value := value % HALF;
    }
    d := AlphabetChar(value);
  }

  /** The key that is used. */
  method ChooseKey(upperKey: string) returns (key: string)
    requires IsUpper(upperKey)
    ensures key == KeyFor(upperKey) && IsKey(key)
  {
    key := NormaliseKey(upperKey);
    if |key| == 0 {
      key := "a";
    }
    NormalisedIsKey(upperKey);
  }

  /** The loop over the text: the key index rolls on with every character enciphered, and no other. */
  method RunWith(input: string, key: string, forward: bool) returns (output: string)
    requires IsKey(key)
    ensures output == Cipher(input, key, forward)
  {
    ghost var text := Cipher(input, key, forward);
    output := "";
    var keyIndex, inTag, i := 0, false, 0;
    while i < |input|
      invariant i <= |input| && inTag == InTag(input, i) && keyIndex == Roll(Count(input, i), |key|)
      invariant output == text[..i]
    {
      var c := input[i];
      if c == '<' {
        inTag := true;
      } else if c == '>' {
        inTag := false;
      }
      ghost var d := CipherChar(input, key, forward, i);
      assert text[..i + 1] == text[..i] + [d];
      if inTag || IndexOf(c) < 0 {
        output := output + [c];
      } else {
        assert key[keyIndex] in key;
        var e := Encipher(c, key[keyIndex], forward);
        output := output + [e];
        RollsOn(Count(input, i), |key|);
        keyIndex := NextKeyIndex(keyIndex, |key|);
      }
      i := i + 1;
    }
    assert text[..i] == text;
  }

  /** `vigenere` */
  method Run(input: string, upperKey: string, forward: bool) returns (output: string)
    requires IsUpper(upperKey)
    ensures output == Text(input, upperKey, forward)
  {
    var key := ChooseKey(upperKey);
    output := RunWith(input, key, forward);
  }
}
