/** The intervention page turns the URL key back into a title: each `-`
    becomes a space, then the first word character of every word is
    upper-cased. */
module InterventionPage {
  import opened JsText
  import ResultPage

  /** `key.replace(/-/g, " ")`. */
  function Dehyphen(key: string): (r: string)
    ensures |r| == |key|
    ensures forall i :: 0 <= i < |key| ==> r[i] == if key[i] == '-' then ' ' else key[i]
  {
    seq(|key|, i requires 0 <= i < |key| => if key[i] == '-' then ' ' else key[i])
  }

  /** `\b\w` matches at `i`: a word character at the start of the string or
      right after a character that is not one. */
  predicate IsWordStart(s: string, i: nat)
    requires i < |s|
  {
    IsWordChar(s[i]) && (i == 0 || !IsWordChar(s[i - 1]))
  }

  /** `s.replace(/\b\w/g, c => c.toUpperCase())`, as the regular-expression
      engine scans: left to right, remembering whether the character before
      was a word character. Exactly the word characters at a word boundary
      are upper-cased; every other character is kept. */
  function Capitalize(s: string, afterWord: bool): (r: string)
    ensures |r| == |s|
    ensures forall i {:trigger r[i]} :: 0 <= i < |s| ==>
              r[i] == if IsWordChar(s[i]) && (if i == 0 then !afterWord else !IsWordChar(s[i - 1]))
                      then UpperChar(s[i]) else s[i]
  {
    if s == [] then []
    else
      var rest := Capitalize(s[1..], IsWordChar(s[0]));
      var r := [if IsWordChar(s[0]) && !afterWord then UpperChar(s[0]) else s[0]] + rest;
      assert forall i {:trigger r[i]} :: 1 <= i < |s| ==>
               r[i] == rest[i - 1] && s[1..][i - 1] == s[i] && (i >= 2 ==> s[1..][i - 2] == s[i - 1]);
      r
  }

  /** The display name for an intervention key: at every position, a `-`
      of the key is a space, a word start is upper-cased, anything else is
      kept. */
  function DisplayName(key: string): (name: string)
    ensures |name| == |key|
    ensures var d := Dehyphen(key);
            forall i :: 0 <= i < |key| ==> name[i] == if IsWordStart(d, i) then UpperChar(d[i]) else d[i]
  {
    var d := Dehyphen(key);
    var name := Capitalize(d, false);
    assert forall i :: 0 <= i < |d| ==>
             name[i] == if IsWordStart(d, i) then UpperChar(d[i]) else d[i];
    name
  }

  /** The display name holds no `-`; it has a space exactly where the key
      has a `-` or a space; a character changes exactly when it is a
      lower-case ASCII letter starting a word, and case is never lowered. */
  lemma DisplayNameCharacters(key: string)
    ensures var name := DisplayName(key); var d := Dehyphen(key);
            forall i :: 0 <= i < |key| ==>
              && name[i] != '-'
              && (name[i] == ' ' <==> key[i] == '-' || key[i] == ' ')
              && (name[i] != d[i] <==> IsWordStart(d, i) && IsAsciiLower(d[i]))
              && (IsAsciiUpper(d[i]) ==> name[i] == d[i])
  {
  }

  /** A single word of word characters is shown with its first letter
      upper-cased and the rest unchanged. */
  lemma SingleWord(w: string)
    requires w != [] && forall i :: 0 <= i < |w| ==> IsWordChar(w[i])
    ensures DisplayName(w) == [UpperChar(w[0])] + w[1..]
  {
    var name := DisplayName(w);
    forall i | 0 <= i < |w| ensures name[i] == ([UpperChar(w[0])] + w[1..])[i] {
    }
  }

  lemma LowerCharIdempotent(c: char)
    ensures LowerChar(LowerChar(c)) == LowerChar(c)
  {
  }

  /** A title whose only separators are single spaces and that holds no
      comma and no `-` comes back from its URL key equal up to case. */
  lemma {:induction false} KeyRoundTrip(types: string)
    requires forall i :: 0 <= i < |types| ==>
               types[i] != ',' && types[i] != '-' && (IsWhitespace(types[i]) ==> types[i] == ' ')
    ensures Lower(DisplayName(ResultPage.InterventionKey(types))) == Lower(types)
  {
    var key := ResultPage.InterventionKey(types);
    var d := Dehyphen(key);
    var name := DisplayName(key);
    forall i | 0 <= i < |types| ensures LowerChar(name[i]) == LowerChar(types[i]) {
      LowerCharIdempotent(types[i]);
      if types[i] == ' ' {
        assert d[i] == ' ';
      } else {
        assert d[i] == LowerChar(types[i]);
      }
    }
  }

  /** A `-` in the title does not come back: "Well-being" returns as
      "Well Being". */
  lemma HyphenDoesNotRoundTrip()
    ensures ResultPage.InterventionKey("Well-being") == "well-being"
    ensures DisplayName("well-being") == "Well Being"
    ensures Lower(DisplayName(ResultPage.InterventionKey("Well-being"))) == "well being" != Lower("Well-being")
  {
    ResultPage.KeyOf("Well-being", "well-being");
    WellBeingPage();
    WellBeingLower();
  }

  lemma WellBeingLower()
    ensures Lower("Well Being") == "well being" != Lower("Well-being")
  {
    assert Lower("Well Being")[4] == ' ' && Lower("Well-being")[4] == '-';
    assert Lower("Well Being") == "well being";
  }

  lemma WellBeingPage()
    ensures DisplayName("well-being") == "Well Being"
  {
    var key := "well-being";
    var name := DisplayName(key);
    forall i | 0 <= i < |key| ensures name[i] == "Well Being"[i] {
    }
  }
}
