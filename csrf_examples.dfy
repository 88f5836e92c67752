/** getCsrfToken on particular cookie strings. */
module CsrfExamples {
  import opened Wrappers
  import opened JsText
  import opened Constants

  /** A name that merely ends in "csrftoken" is not an entry. */
  lemma ExampleLongerName()
    ensures GetCsrfToken("xcsrftoken=1") == ""
  {
    var c := "xcsrftoken=1";
    PlainString(c);
    assert c[0] != TokenName[0];
    assert c[0..12] == c;
    SkipStretch(c, 0, 0, 12);
    assert LineEnd(c, 0) == 12;
    assert FirstMatch(c, 0) == Some(Match(0, 12, None));
  }

  /** A ';' and a line break after an entry leave nothing to match, and the string comes back
      whole. */
  lemma ExampleLineBreak()
    ensures GetCsrfToken("csrftoken=a;\n") == "csrftoken=a;\n"
  {
    var c := "csrftoken=a;\n";
    assert !NoLineTerminator(c, 0, |c|) by {
      assert IsLineTerminator(c[12]);
    }
    assert c[0..9] == TokenName;
    assert SkipSpaces(c, 9) == 9;
    assert SkipSpaces(c, 10) == 10;
    assert NextSemicolon(c, 10) == 11;
    assert !NoLineTerminator(c, 11, |c|) by {
      assert IsLineTerminator(c[12]);
    }
    assert EntryAt(c, 0).None?;
    assert c[..11] == "csrftoken=a";
    forall k | 0 <= k < |c|
      ensures !EntryFollows(c, k)
    {
      if k < 11 {
        assert c[k] in c[..11];
      } else if k == 11 {
        assert SkipSpaces(c, 12) == 13;
      }
    }
    NothingMatches(c, 0);
  }

  /** The cookie string of ExampleMiddleEntry has no line breaks and no leading entry. */
  lemma MiddleNoLeadingEntry(c: string)
    requires c == "a=1; csrftoken=xyz; b=2"
    ensures NoLineTerminator(c, 0, |c|) && EntryAt(c, 0).None?
  {
    PlainString(c);
    assert c[0] != TokenName[0];
  }

  /** The entry after its first ';' and space has the group "xyz" at 15 to 18. */
  lemma MiddleEntryAt(c: string)
    requires c == "a=1; csrftoken=xyz; b=2" && NoLineTerminator(c, 0, |c|)
    ensures EntryAt(c, 5) == Some((15, 18)) && c[15..18] == "xyz"
  {
    assert c[5..14] == TokenName;
    EntryAtIs(c, 5, 14, 15, 18);
  }

  /** An entry after other entries: the token is its value, with the space after the ';'
      skipped and the entries before and after it ignored. */
  lemma ExampleMiddleEntry()
    ensures GetCsrfToken("a=1; csrftoken=xyz; b=2") == "xyz"
  {
    var c := "a=1; csrftoken=xyz; b=2";
    MiddleNoLeadingEntry(c);
    MiddleEntryAt(c);
    LaterEntryValueAt(c, 3, 5);
  }
}
