/**
  Logging/SensitiveFieldNames.cs: which field names are secrets, which hold e-mail addresses, and
  how an address is masked.
*/
module SensitiveFieldNames {
  import opened Strings

  const REDACTED := "[redacted]"

  const SECRET_FRAGMENTS := [
    "password", "token", "secret", "hash", "apikey", "credential",
    "cookie", "authorization", "recoverycode", "privatekey", "signature"
  ]

  const EMAIL_FRAGMENTS := ["email"]

  /** `fragment` occurs in `name` at `at`, whatever the case of ASCII letters. */
  predicate OccursAt(name: string, fragment: string, at: int) {
    0 <= at && at + |fragment| <= |name| && LowerAll(name[at..at + |fragment|]) == LowerAll(fragment)
  }

  predicate Contains(name: string, fragment: string) {
    exists at :: 0 <= at <= |name| && OccursAt(name, fragment, at)
  }

  predicate Matches(name: string, fragments: seq<string>) {
    exists k :: 0 <= k < |fragments| && Contains(name, fragments[k])
  }

  predicate IsSecret(name: string) {
    Matches(name, SECRET_FRAGMENTS)
  }

  predicate IsEmail(name: string) {
    Matches(name, EMAIL_FRAGMENTS)
  }

  /** Spelling a name in another case, or as part of a longer one, does not take it off a list. */
  lemma MatchesWithin(name: string, fragments: seq<string>, before: string, respelled: string, after: string)
    requires Matches(name, fragments) && LowerAll(respelled) == LowerAll(name)
    ensures Matches(before + respelled + after, fragments)
  {
    var k :| 0 <= k < |fragments| && Contains(name, fragments[k]);
    var at :| 0 <= at <= |name| && OccursAt(name, fragments[k], at);
    var longer, n := before + respelled + after, |fragments[k]|;
    assert |LowerAll(respelled)| == |LowerAll(name)|;
    assert longer[|before| + at..|before| + at + n] == respelled[at..at + n];
    assert LowerAll(respelled[at..at + n]) == LowerAll(respelled)[at..at + n];
    assert LowerAll(name[at..at + n]) == LowerAll(name)[at..at + n];
    assert OccursAt(longer, fragments[k], |before| + at);
    assert Contains(longer, fragments[k]);
  }

  /** `c` is the lower-case letter `l` or its capital. */
  predicate Spells(c: char, l: char) {
    c == l || c as int == l as int - 32
  }

  predicate SpelledAt(name: string, word: string, at: nat) {
    at + |word| <= |name| && forall j :: 0 <= j < |word| ==> Spells(name[at + j], word[j])
  }

  /** The word stands somewhere in the name, in whatever case, with or without text around it. */
  predicate Names(name: string, word: string) {
    exists at: nat :: at <= |name| && SpelledAt(name, word, at)
  }

  predicate IsLower(word: string) {
    forall j :: 0 <= j < |word| ==> 'a' <= word[j] <= 'z'
  }

  lemma OccursExactly(name: string, word: string, at: nat)
    requires IsLower(word)
    ensures OccursAt(name, word, at) <==> SpelledAt(name, word, at)
  {
    if at + |word| <= |name| {
      var cut := name[at..at + |word|];
      assert forall j :: 0 <= j < |word| ==> cut[j] == name[at + j];
      assert forall j :: 0 <= j < |word| ==> (LowerAll(cut)[j] == LowerAll(word)[j] <==> Spells(name[at + j], word[j]));
      if OccursAt(name, word, at) {
        assert forall j :: 0 <= j < |word| ==> LowerAll(cut)[j] == LowerAll(word)[j];
      } else {
        assert LowerAll(cut) != LowerAll(word);
      }
    }
  }

  lemma ContainsExactly(name: string, word: string)
    requires IsLower(word)
    ensures Contains(name, word) <==> Names(name, word)
  {
    hide OccursAt, SpelledAt;
    forall at: nat ensures OccursAt(name, word, at) <==> SpelledAt(name, word, at) {
      OccursExactly(name, word, at);
    }
  }

  /** Which names are secret, and which hold an address: those that spell one of these words somewhere. */
  lemma NamesExactly(name: string)
    ensures IsSecret(name) <==>
            || Names(name, "password") || Names(name, "token") || Names(name, "secret") || Names(name, "hash")
            || Names(name, "apikey") || Names(name, "credential") || Names(name, "cookie")
            || Names(name, "authorization") || Names(name, "recoverycode") || Names(name, "privatekey")
            || Names(name, "signature")
    ensures IsEmail(name) <==> Names(name, "email")
  {
    hide Contains, Names;
    ListExactly(name, SECRET_FRAGMENTS);
    ListExactly(name, EMAIL_FRAGMENTS);
    var words := SECRET_FRAGMENTS;
    assert words[0] == "password" && words[1] == "token" && words[2] == "secret" && words[3] == "hash";
    assert words[4] == "apikey" && words[5] == "credential" && words[6] == "cookie" && words[7] == "authorization";
    assert words[8] == "recoverycode" && words[9] == "privatekey" && words[10] == "signature" && |words| == 11;
    assert EMAIL_FRAGMENTS[0] == "email";
  }

  lemma ListExactly(name: string, words: seq<string>)
    requires forall k :: 0 <= k < |words| ==> IsLower(words[k])
    ensures Matches(name, words) <==> exists k :: 0 <= k < |words| && Names(name, words[k])
  {
    hide Contains, Names;
    forall k | 0 <= k < |words| ensures Contains(name, words[k]) <==> Names(name, words[k]) {
      ContainsExactly(name, words[k]);
    }
  }

  function MaskEmail(value: string): string {
    var at := IndexOf(value, '@');
    if at <= 0 || at == |value| - 1 then REDACTED
    else (if at == 1 then "*" else value[..1]) + "***" + value[at..]
  }

  /** An address shows its domain and the first character of a local part of two or more. */
  predicate IsAddress(value: string) {
    0 < IndexOf(value, '@') < |value| - 1
  }

  function Shown(value: string): (char, string)
    requires IsAddress(value)
  {
    var at := IndexOf(value, '@');
    (if at == 1 then '*' else value[0], value[at..])
  }

  /** What a masked value looks like. */
  predicate IsMasked(value: string) {
    value == REDACTED
    || (|value| >= 6 && value[0] != '@' && value[1..4] == "***" && value[4] == '@')
  }

  /** The masked values are exactly the fixed points of masking, and every value masks to one. */
  lemma MaskExactly(value: string)
    ensures IsMasked(MaskEmail(value))
    ensures MaskEmail(value) == value <==> IsMasked(value)
  {
    var at := IndexOf(value, '@');
    assert '@' !in REDACTED;
    if IsMasked(value) && value != REDACTED {
      assert value[1] == value[1..4][0] && value[2] == value[1..4][1] && value[3] == value[1..4][2];
      assert value == value[..1] + value[1..4] + value[4..];
    }
    if IsAddress(value) {
      var masked := MaskEmail(value);
      assert masked[1..4] == "***" && masked[4..] == value[at..];
    }
  }

  /** Two values mask alike exactly when neither is an address or both show the same parts. */
  lemma MaskReveals(a: string, b: string)
    ensures MaskEmail(a) == MaskEmail(b) <==>
            IsAddress(a) == IsAddress(b) && (IsAddress(a) ==> Shown(a) == Shown(b))
  {
    MaskParts(a);
    MaskParts(b);
  }

  lemma MaskParts(value: string)
    ensures if IsAddress(value)
            then var m := MaskEmail(value);
                 |m| >= 5 && m[0] == Shown(value).0 && m[1..4] == "***" && m[4..] == Shown(value).1
                 && m == [m[0]] + m[1..4] + m[4..] && m[4] == '@'
            else MaskEmail(value) == REDACTED && REDACTED[4] != '@'
  {
    if IsAddress(value) {
      var at, m := IndexOf(value, '@'), MaskEmail(value);
      assert m[1..4] == "***" && m[4..] == value[at..];
    }
  }
}
