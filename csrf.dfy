/** getCsrfToken: the cookie string with the regular expression
    `(?:(?:^|.*;\s*)csrftoken\s*=\s*([^;]*).*$)|^.*$` (no flags) replaced by its first group.
    The model follows the backtracking search of that expression: the first position a match
    starts at, and at that position the first way of matching in the expression's own order.
    Replacing the match by `$1` leaves what precedes the match and puts the group, or nothing
    when the group did not take part, in place of the match, which always runs to the end. */
module Constants {
  import opened Wrappers
  import opened JsText

  const TokenName := "csrftoken"

  /** No line terminator in `s[i..j]`: where `.` can run. */
  predicate NoLineTerminator(s: string, i: nat, j: nat)
    requires i <= j <= |s|
  {
    forall k :: i <= k < j ==> !IsLineTerminator(s[k])
  }

  /** The end of the longest run of `\s` characters from `i`: where a greedy `\s*` stops. */
  function SkipSpaces(s: string, i: nat): (j: nat)
    requires i <= |s|
    ensures i <= j <= |s|
    ensures forall k :: i <= k < j ==> IsSpace(s[k])
    ensures j == |s| || !IsSpace(s[j])
    decreases |s| - i
  {
    if i < |s| && IsSpace(s[i]) then SkipSpaces(s, i + 1) else i
  }

  /** Where a greedy `[^;]*` from `i` stops: at the first ';' or at the end. */
  function NextSemicolon(s: string, i: nat): (j: nat)
    requires i <= |s|
    ensures i <= j <= |s|
    ensures forall k :: i <= k < j ==> s[k] != ';'
    ensures j == |s| || s[j] == ';'
    decreases |s| - i
  {
    if i < |s| && s[i] != ';' then NextSemicolon(s, i + 1) else i
  }

  /** Where a greedy `.*` from `i` stops: at the first line terminator or at the end. */
  function LineEnd(s: string, i: nat): (j: nat)
    requires i <= |s|
    ensures i <= j <= |s|
    ensures NoLineTerminator(s, i, j)
    ensures j == |s| || IsLineTerminator(s[j])
    decreases |s| - i
  {
    if i < |s| && !IsLineTerminator(s[i]) then LineEnd(s, i + 1) else i
  }

  /** `csrftoken\s*=\s*([^;]*).*$` from position `i`: the bounds of the group when it matches.
      Giving back characters of a greedy part never helps here, so the first way of matching
      takes each part at its longest; `.*$` then needs the rest after the group to lack line
      terminators. */
  function EntryAt(s: string, i: nat): (g: Option<(nat, nat)>)
    requires i <= |s|
    ensures g.Some? ==> i + |TokenName| <= g.value.0 <= g.value.1 <= |s|
    ensures g.Some? ==> s[i..i + |TokenName|] == TokenName
    ensures g.Some? ==> g.value.0 == |s| || !IsSpace(s[g.value.0])
    ensures g.Some? ==> forall k :: g.value.0 <= k < g.value.1 ==> s[k] != ';'
    ensures g.Some? ==> g.value.1 == |s| || s[g.value.1] == ';'
    ensures g.Some? ==> NoLineTerminator(s, g.value.1, |s|)
  {
    if i + |TokenName| > |s| || s[i..i + |TokenName|] != TokenName then None
    else
      var a := SkipSpaces(s, i + |TokenName|);
      if a == |s| || s[a] != '=' then None
      else
        var b := SkipSpaces(s, a + 1);
        var e := NextSemicolon(s, b);
        if NoLineTerminator(s, e, |s|) then Some((b, e)) else None
  }

  /** The entry that follows the ';' at `k` once `\s*` has skipped the spaces after it. */
  function EntryAfter(s: string, k: nat): (g: Option<(nat, nat)>)
    requires k < |s|
    ensures g.Some? ==> k < g.value.0 <= g.value.1 <= |s|
  {
    EntryAt(s, SkipSpaces(s, k + 1))
  }

  /** Whether an entry follows a ';' at `k`. */
  predicate EntryFollows(s: string, k: nat)
    requires k < |s|
  {
    s[k] == ';' && EntryAfter(s, k).Some?
  }

  /** The ';' positions an entry follows, as a predicate on positions. */
  function EntryFollowsAt(s: string): nat -> bool {
    (k: nat) => k < |s| && EntryFollows(s, k)
  }

  /** The last position from `p` up to `m` where `f` holds. */
  function LastWhere(f: nat -> bool, p: nat, m: nat): (r: Option<nat>)
    requires p <= m
    ensures r.Some? ==> p <= r.value < m && f(r.value)
    ensures r.Some? ==> forall k :: r.value < k < m ==> !f(k)
    ensures r.None? <==> forall k :: p <= k < m ==> !f(k)
    decreases m - p
  {
    if m == p then None
    else if f(m - 1) then Some(m - 1)
    else LastWhere(f, p, m - 1)
  }

  /** `.*;\s*` and an entry, from position `p`, with `.*` allowed to reach up to `m`: the
      greedy `.*` tries the ';' positions from the last one down, so the ';' chosen is the last
      one before `m` that an entry follows. */
  function LastEntrySemicolon(s: string, p: nat, m: nat): (r: Option<nat>)
    requires p <= m <= |s|
    ensures r.Some? ==> p <= r.value < m && EntryFollows(s, r.value)
    ensures r.Some? ==> forall k :: r.value < k < m ==> !EntryFollowsAt(s)(k)
    ensures r.None? <==> forall k :: p <= k < m ==> !EntryFollowsAt(s)(k)
  {
    LastWhere(EntryFollowsAt(s), p, m)
  }

  /** The first alternative from position `p`: `^` (only at the start) before `.*;\s*`. */
  function FirstAlternative(s: string, p: nat): (g: Option<(nat, nat)>)
    requires p <= |s|
    ensures g.Some? ==> p <= g.value.0 <= g.value.1 <= |s|
  {
    if p == 0 && EntryAt(s, 0).Some? then EntryAt(s, 0)
    else match LastEntrySemicolon(s, p, LineEnd(s, p))
      case Some(k) => EntryAfter(s, k)
      case None => None
  }

  /** A match: where it starts and ends, and the group when it took part. */
  datatype Match = Match(start: nat, end: nat, group: Option<(nat, nat)>)

  /** The first match at position `p` or later. Both alternatives end with `$`, so every
      match runs to the end; the second, `^.*$`, can only match the whole string, and only
      when it has no line terminator. */
  function FirstMatch(s: string, p: nat): (r: Option<Match>)
    requires p <= |s|
    ensures r.Some? ==> p <= r.value.start <= |s| && r.value.end == |s|
    ensures r.Some? && r.value.group.Some? ==>
              r.value.start <= r.value.group.value.0 <= r.value.group.value.1 <= |s|
    decreases |s| - p
  {
    match FirstAlternative(s, p)
    case Some(g) => Some(Match(p, |s|, Some(g)))
    case None =>
      if p == 0 && NoLineTerminator(s, 0, |s|) then Some(Match(0, |s|, None))
      else if p == |s| then None
      else FirstMatch(s, p + 1)
  }

  /** getCsrfToken: `document.cookie.replace(pattern, '$1')`. */
  function GetCsrfToken(cookie: string): string {
    match FirstMatch(cookie, 0)
    case None => cookie
    case Some(m) =>
      cookie[..m.start] + (if m.group.Some? then cookie[m.group.value.0..m.group.value.1] else "")
  }

  /** On a cookie string without line breaks, as `document.cookie` always is, the token is the
      value of a leading `csrftoken` entry when there is one; otherwise the value of the entry
      after the last ';' that begins one; otherwise empty. */
  lemma TokenOfCookie(cookie: string)
    requires NoLineTerminator(cookie, 0, |cookie|)
    ensures EntryAt(cookie, 0).Some? ==>
              GetCsrfToken(cookie) == cookie[EntryAt(cookie, 0).value.0..EntryAt(cookie, 0).value.1]
    ensures EntryAt(cookie, 0).None? && LastEntrySemicolon(cookie, 0, |cookie|).Some? ==>
              var k := LastEntrySemicolon(cookie, 0, |cookie|).value;
              GetCsrfToken(cookie) == cookie[EntryAfter(cookie, k).value.0..EntryAfter(cookie, k).value.1]
    ensures EntryAt(cookie, 0).None? && LastEntrySemicolon(cookie, 0, |cookie|).None? ==>
              GetCsrfToken(cookie) == ""
  {
    assert LineEnd(cookie, 0) == |cookie|;
  }

  /** The group of an entry holds no ';'. */
  lemma GroupHasNoSemicolon(s: string, i: nat)
    requires i <= |s| && EntryAt(s, i).Some?
    ensures ';' !in s[EntryAt(s, i).value.0..EntryAt(s, i).value.1]
  {
    var g := EntryAt(s, i).value;
    var t := s[g.0..g.1];
    forall k | 0 <= k < |t| ensures t[k] != ';' {
      assert t[k] == s[g.0 + k];
    }
  }

  /** The entry after a ';' wins when no later ';' starts one, whatever comes before it short
      of a leading entry: so of two such entries the later one is read. */
  lemma LastEntryWins(s: string, k: nat)
    requires NoLineTerminator(s, 0, |s|) && EntryAt(s, 0).None?
    requires k < |s| && EntryFollows(s, k)
    requires forall j :: k < j < |s| ==> !EntryFollowsAt(s)(j)
    ensures GetCsrfToken(s) == s[EntryAfter(s, k).value.0..EntryAfter(s, k).value.1]
  {
    LastWhereSkips(EntryFollowsAt(s), 0, k + 1, |s|);
    LastWhereFound(EntryFollowsAt(s), 0, k);
    assert LastEntrySemicolon(s, 0, |s|) == Some(k);
    assert LineEnd(s, 0) == |s|;
    assert FirstAlternative(s, 0) == EntryAfter(s, k);
  }

  /** Such a token is a piece of the cookie string that holds no ';'. */
  lemma TokenIsPlainValue(cookie: string)
    requires NoLineTerminator(cookie, 0, |cookie|)
    ensures exists i, j :: 0 <= i <= j <= |cookie| && GetCsrfToken(cookie) == cookie[i..j]
    ensures ';' !in GetCsrfToken(cookie)
  {
    TokenOfCookie(cookie);
    if EntryAt(cookie, 0).Some? {
      GroupHasNoSemicolon(cookie, 0);
      var g := EntryAt(cookie, 0).value;
      assert GetCsrfToken(cookie) == cookie[g.0..g.1];
    } else if LastEntrySemicolon(cookie, 0, |cookie|).Some? {
      var k := LastEntrySemicolon(cookie, 0, |cookie|).value;
      GroupHasNoSemicolon(cookie, SkipSpaces(cookie, k + 1));
      var g := EntryAfter(cookie, k).value;
      assert GetCsrfToken(cookie) == cookie[g.0..g.1];
    } else {
      assert GetCsrfToken(cookie) == cookie[0..0];
    }
  }

  /** Without any `csrftoken` entry the token is empty. */
  lemma NoEntryGivesEmpty(cookie: string)
    requires NoLineTerminator(cookie, 0, |cookie|)
    requires forall i :: 0 <= i <= |cookie| ==> EntryAt(cookie, i).None?
    ensures GetCsrfToken(cookie) == ""
  {
    TokenOfCookie(cookie);
  }

  /** A string none of whose characters is a line terminator. */
  lemma PlainString(s: string)
    requires '\n' !in s && '\r' !in s && '\U{2028}' !in s && '\U{2029}' !in s
    ensures NoLineTerminator(s, 0, |s|)
  {
    assert forall k :: 0 <= k < |s| ==> s[k] in s;
  }

  /** The search for the last position passes over a stretch where `f` fails. */
  lemma {:induction false} LastWhereSkips(f: nat -> bool, p: nat, a: nat, m: nat)
    requires p <= a <= m
    requires forall k :: a <= k < m ==> !f(k)
    ensures LastWhere(f, p, m) == LastWhere(f, p, a)
    decreases m - a
  {
    if a < m {
      LastWhereSkips(f, p, a, m - 1);
    }
  }

  /** The search for the last position stops at the first position from the top where `f`
      holds. */
  lemma LastWhereFound(f: nat -> bool, p: nat, k: nat)
    requires p <= k && f(k)
    ensures LastWhere(f, p, k + 1) == Some(k)
  {
  }

  /** So the search for the last ';' passes over a stretch without one. */
  lemma SkipStretch(s: string, p: nat, a: nat, m: nat)
    requires p <= a <= m <= |s| && ';' !in s[a..m]
    ensures LastEntrySemicolon(s, p, m) == LastEntrySemicolon(s, p, a)
  {
    forall k | a <= k < m
      ensures !EntryFollowsAt(s)(k)
    {
      assert s[k] == s[a..m][k - a];
    }
    LastWhereSkips(EntryFollowsAt(s), p, a, m);
  }

  /** When the string has a line break (so `^.*$` fails), the start is no entry, and no ';' is
      followed by an entry whose rest is free of line breaks, no position matches and the
      cookie string comes back whole. */
  lemma {:induction false} NothingMatches(s: string, p: nat)
    requires p <= |s|
    requires !NoLineTerminator(s, 0, |s|) && EntryAt(s, 0).None?
    requires forall k :: 0 <= k < |s| ==> !EntryFollows(s, k)
    ensures FirstMatch(s, p).None?
    decreases |s| - p
  {
    assert LastEntrySemicolon(s, p, LineEnd(s, p)).None?;
    if p < |s| {
      NothingMatches(s, p + 1);
    }
  }

  /** A greedy `\s*` stops at the end of a run of spaces. */
  lemma {:induction false} SkipSpacesOver(s: string, i: nat, j: nat)
    requires i <= j <= |s|
    requires forall k :: i <= k < j ==> IsSpace(s[k])
    requires j == |s| || !IsSpace(s[j])
    ensures SkipSpaces(s, i) == j
    decreases j - i
  {
    if i < j {
      SkipSpacesOver(s, i + 1, j);
    }
  }

  /** A greedy `[^;]*` stops at the end of a stretch without ';'. */
  lemma {:induction false} NextSemicolonOver(s: string, i: nat, j: nat)
    requires i <= j <= |s|
    requires forall k :: i <= k < j ==> s[k] != ';'
    requires j == |s| || s[j] == ';'
    ensures NextSemicolon(s, i) == j
    decreases j - i
  {
    if i < j {
      NextSemicolonOver(s, i + 1, j);
    }
  }

  /** The converse of EntryAt's contract: an entry laid out as the expression reads it is
      found, with its group where the layout puts it. */
  lemma EntryAtIs(s: string, i: nat, a: nat, b: nat, e: nat)
    requires i + |TokenName| <= a < |s| && s[i..i + |TokenName|] == TokenName
    requires forall k :: i + |TokenName| <= k < a ==> IsSpace(s[k])
    requires s[a] == '='
    requires a + 1 <= b <= e <= |s|
    requires forall k :: a + 1 <= k < b ==> IsSpace(s[k])
    requires b == |s| || !IsSpace(s[b])
    requires forall k :: b <= k < e ==> s[k] != ';'
    requires e == |s| || s[e] == ';'
    requires NoLineTerminator(s, e, |s|)
    ensures EntryAt(s, i) == Some((b, e))
  {
    SkipSpacesOver(s, i + |TokenName|, a);
    SkipSpacesOver(s, a + 1, b);
    NextSemicolonOver(s, b, e);
  }

  /** A leading entry wins, whatever follows and even across line breaks. */
  lemma LeadingEntryWins(s: string)
    requires EntryAt(s, 0).Some?
    ensures GetCsrfToken(s) == s[EntryAt(s, 0).value.0..EntryAt(s, 0).value.1]
  {
  }

  /** A cookie string that begins with the entry: the token is its value, with the spaces
      around the '=' skipped and whatever follows the value's ';' (a second entry included)
      ignored. */
  lemma LeadingEntryValue(before: string, after: string, value: string, rest: string)
    requires forall k :: 0 <= k < |before| ==> IsSpace(before[k])
    requires forall k :: 0 <= k < |after| ==> IsSpace(after[k])
    requires ';' !in value && (value == [] || !IsSpace(value[0]))
    requires rest == [] || rest[0] == ';'
    requires forall k :: 0 <= k < |rest| ==> !IsLineTerminator(rest[k])
    ensures GetCsrfToken(TokenName + before + "=" + after + value + rest) == value
  {
    var s := TokenName + before + "=" + after + value + rest;
    var a := |TokenName| + |before|;
    var b := a + 1 + |after|;
    var e := b + |value|;
    assert s[0..|TokenName|] == TokenName;
    assert s[a] == '=';
    forall k | |TokenName| <= k < a ensures IsSpace(s[k]) {
      assert s[k] == before[k - |TokenName|];
    }
    forall k | a + 1 <= k < b ensures IsSpace(s[k]) {
      assert s[k] == after[k - a - 1];
    }
    if b < |s| {
      if value != [] {
        assert s[b] == value[0];
      } else {
        assert s[b] == rest[0];
      }
    }
    forall k | b <= k < e ensures s[k] != ';' {
      assert s[k] == value[k - b];
    }
    if e < |s| {
      assert s[e] == rest[0];
    }
    forall k | e <= k < |s| ensures !IsLineTerminator(s[k]) {
      assert s[k] == rest[k - e];
    }
    EntryAtIs(s, 0, a, b, e);
    LeadingEntryWins(s);
    assert s[b..e] == value;
  }

  /** The name starts at position `p`. */
  predicate NameAt(s: string, p: nat) {
    p + |TokenName| <= |s| && s[p..p + |TokenName|] == TokenName
  }

  /** Past position `e` the name never starts, so no ';' there is followed by an entry. */
  lemma NoEntryFrom(s: string, e: nat)
    requires e <= |s|
    requires forall p: nat :: e <= p ==> !NameAt(s, p)
    ensures forall j :: e <= j < |s| ==> !EntryFollowsAt(s)(j)
  {
    forall j | e <= j < |s|
      ensures !EntryFollowsAt(s)(j)
    {
      var p := SkipSpaces(s, j + 1);
      assert !NameAt(s, p);
    }
  }

  /** The entry after the ';' at `k` is read when no ';' lies inside it and the name does not
      occur after it. */
  lemma EntryAfterLastSemicolon(s: string, k: nat, b: nat, e: nat)
    requires NoLineTerminator(s, 0, |s|) && EntryAt(s, 0).None?
    requires k < e <= |s| && s[k] == ';' && EntryAfter(s, k) == Some((b, e))
    requires forall j :: k < j < e ==> s[j] != ';'
    requires forall p: nat :: e <= p ==> !NameAt(s, p)
    ensures GetCsrfToken(s) == s[b..e]
  {
    NoEntryFrom(s, e);
    forall j | k < j < |s|
      ensures !EntryFollowsAt(s)(j)
    {
      if j < e {
        assert s[j] != ';';
      }
    }
    LastEntryWins(s, k);
  }

  /** No ';' lies anywhere in an entry: not in the name, the spaces, the '=', or the group. */
  lemma EntryHasNoSemicolon(s: string, i: nat)
    requires i <= |s| && EntryAt(s, i).Some?
    ensures forall k :: i <= k < EntryAt(s, i).value.1 ==> s[k] != ';'
  {
    var a := SkipSpaces(s, i + |TokenName|);
    forall k | i <= k < EntryAt(s, i).value.1
      ensures s[k] != ';'
    {
      if k < i + |TokenName| {
        assert s[k] == s[i..i + |TokenName|][k - i];
      } else if k == a {
        assert s[k] == '=';
      }
    }
  }

  /** The entry at `n`, reached from the ';' at `k` across white space, is read when the string
      has no line breaks, does not begin with an entry, and has no name after the entry's group. */
  lemma LaterEntryValueAt(s: string, k: nat, n: nat)
    requires k < n <= |s| && s[k] == ';'
    requires forall j :: k < j < n ==> IsWhiteSpace(s[j])
    requires EntryAt(s, n).Some?
    requires NoLineTerminator(s, 0, |s|) && EntryAt(s, 0).None?
    requires forall p: nat :: EntryAt(s, n).value.1 <= p ==> !NameAt(s, p)
    ensures GetCsrfToken(s) == s[EntryAt(s, n).value.0..EntryAt(s, n).value.1]
  {
    var g := EntryAt(s, n).value;
    EntryHasNoSemicolon(s, n);
    assert s[n] == s[n..n + |TokenName|][0];
    SkipSpacesOver(s, k + 1, n);
    forall j | k < j < g.1 ensures s[j] != ';' {
      if j < n {
        assert IsWhiteSpace(s[j]);
      }
    }
    EntryAfterLastSemicolon(s, k, g.0, g.1);
  }
}
