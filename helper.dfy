/**
 * The string helpers behind product URLs and masked text: the `name-i-id`
 * slug written into product links and read back on the product page, and
 * `hideText`, which masks part of a string.
 */
module Helper {
  import opened Wrappers

  // ---------------------------------------------------------------- splitting on "-i-"

  const Separator: string := "-i-"

  predicate OccursAt(s: string, k: int) {
    0 <= k && k + 3 <= |s| && s[k..k + 3] == Separator
  }

  predicate NoSeparator(s: string) {
    forall k :: 0 <= k < |s| ==> !OccursAt(s, k)
  }

  predicate NoDash(s: string) {
    forall i :: 0 <= i < |s| ==> s[i] != '-'
  }

  /** The leftmost occurrence of the separator at or after position `i`. */
  function FindFrom(s: string, i: nat): (r: Option<nat>)
    requires i <= |s|
    ensures r.None? ==> forall k :: i <= k ==> !OccursAt(s, k)
    ensures r.Some? ==> i <= r.value && OccursAt(s, r.value)
    ensures r.Some? ==> forall k :: i <= k < r.value ==> !OccursAt(s, k)
    decreases |s| - i
  {
    if i + 3 > |s| then None
    else if s[i..i + 3] == Separator then Some(i)
    else FindFrom(s, i + 1)
  }

  /** The rightmost occurrence of the separator that starts before position `i`. */
  function FindBefore(s: string, i: nat): (r: Option<nat>)
    requires i <= |s|
    ensures r.None? ==> forall k :: k < i ==> !OccursAt(s, k)
    ensures r.Some? ==> r.value < i && OccursAt(s, r.value)
    ensures r.Some? ==> forall k :: r.value < k < i ==> !OccursAt(s, k)
    decreases i
  {
    if i == 0 then None
    else if OccursAt(s, i - 1) then Some(i - 1)
    else FindBefore(s, i - 1)
  }

  lemma PrefixOccurrence(s: string, k: nat, j: int)
    requires k <= |s| && OccursAt(s[..k], j)
    ensures OccursAt(s, j)
  {
    assert s[..k][j..j + 3] == s[j..j + 3];
  }

  function Join(parts: seq<string>): string
    requires |parts| >= 1
  {
    if |parts| == 1 then parts[0] else parts[0] + Separator + Join(parts[1..])
  }

  /**
   * `s.split('-i-')`: the pieces between the occurrences found scanning left
   * to right, each search resuming after the previous match.
   */
  function Split(s: string): (parts: seq<string>)
    ensures |parts| >= 1
    ensures forall i :: 0 <= i < |parts| ==> NoSeparator(parts[i])
    decreases |s|
  {
    match FindFrom(s, 0)
    case None => [s]
    case Some(k) =>
      assert NoSeparator(s[..k]) by {
        forall j | 0 <= j < k ensures !OccursAt(s[..k], j) {
          if OccursAt(s[..k], j) {
            PrefixOccurrence(s, k, j);
          }
        }
      }
      [s[..k]] + Split(s[k + 3..])
  }

  /**
   * `split` cuts at the leftmost separator first: a text without one is a
   * single piece; otherwise the first piece is everything before the
   * leftmost occurrence and the rest is the split of what follows it.
   */
  lemma SplitTakesLeftmost(s: string)
    ensures NoSeparator(s) <==> Split(s) == [s]
    ensures Split(s)[0] <= s
    ensures Split(s) != [s] ==>
      OccursAt(s, |Split(s)[0]|) && NoSeparator(Split(s)[0])
      && Split(s)[1..] == Split(s[|Split(s)[0]| + 3..])
  {
    match FindFrom(s, 0)
    case None =>
    case Some(k) =>
      var rest := Split(s[k + 3..]);
      assert Split(s) == [s[..k]] + rest;
      assert Split(s) != [s] by {
        assert |s[..k]| < |s|;
      }
  }

  /** Joining the pieces with the separator gives back the string: splitting loses nothing. */
  lemma {:induction false} SplitJoin(s: string)
    ensures Join(Split(s)) == s
    decreases |s|
  {
    match FindFrom(s, 0)
    case None =>
    case Some(k) =>
      var rest := Split(s[k + 3..]);
      SplitJoin(s[k + 3..]);
      assert Split(s) == [s[..k]] + rest;
      assert ([s[..k]] + rest)[1..] == rest;
      assert s[k..k + 3] == Separator;
      assert s[..k] + Separator + s[k + 3..] == s;
  }

  /** `getIdFromNameId`: the last piece of the split. */
  function GetIdFromNameId(nameId: string): (id: string)
    ensures NoSeparator(id)
    ensures NoSeparator(nameId) ==> id == nameId
  {
    var parts := Split(nameId);
    parts[|parts| - 1]
  }

  // ---------------------------------------------------------------- building the slug

  const SpecialCharacters: string := "!@%^*()+=<>?/,.:;'\"&#[]~$_`-{}|\\"

  predicate IsSpecial(c: char) {
    c in SpecialCharacters
  }

  /** The characters `\s` matches in a JavaScript regular expression. */
  predicate IsWhitespace(c: char) {
    c == '\t' || c == '\n' || c == '\U{000B}' || c == '\U{000C}' || c == '\r' || c == ' '
    || c == '\U{00A0}' || c == '\U{1680}' || ('\U{2000}' <= c <= '\U{200A}')
    || c == '\U{2028}' || c == '\U{2029}' || c == '\U{202F}' || c == '\U{205F}'
    || c == '\U{3000}' || c == '\U{FEFF}'
  }

  /** `removeSpecialCharacter`: delete every listed punctuation character. */
  function RemoveSpecialCharacter(s: string): (r: string)
    ensures |r| <= |s|
    ensures forall i :: 0 <= i < |r| ==> !IsSpecial(r[i])
  {
    if s == [] then []
    else (if IsSpecial(s[0]) then [] else [s[0]]) + RemoveSpecialCharacter(s[1..])
  }

  /** Removal keeps the remaining characters in their order: it distributes over concatenation. */
  lemma {:induction false} RemoveSpecialAppend(a: string, b: string)
    ensures RemoveSpecialCharacter(a + b) == RemoveSpecialCharacter(a) + RemoveSpecialCharacter(b)
    decreases |a|
  {
    if a == [] {
      assert a + b == b;
    } else {
      var ab := a + b;
      assert ab[0] == a[0] && ab[1..] == a[1..] + b;
      RemoveSpecialAppend(a[1..], b);
    }
  }

  /** A string without listed characters passes through unchanged; so removal is idempotent. */
  lemma {:induction false} RemoveSpecialKeepsPlain(s: string)
    requires forall i :: 0 <= i < |s| ==> !IsSpecial(s[i])
    ensures RemoveSpecialCharacter(s) == s
    decreases |s|
  {
    if s != [] {
      RemoveSpecialKeepsPlain(s[1..]);
    }
  }
  /** On a single character, removal deletes a listed character and keeps any other. */
  lemma RemoveSpecialOneChar(c: char)
    ensures IsSpecial(c) ==> RemoveSpecialCharacter([c]) == []
    ensures !IsSpecial(c) ==> RemoveSpecialCharacter([c]) == [c]
  {
    assert [c][1..] == [];
  }


  /** `.replace(/\s/g, '-')`. */
  function DashWhitespace(s: string): (r: string)
    ensures |r| == |s|
    ensures forall i :: 0 <= i < |s| ==> r[i] == (if IsWhitespace(s[i]) then '-' else s[i])
  {
    if s == [] then [] else [if IsWhitespace(s[0]) then '-' else s[0]] + DashWhitespace(s[1..])
  }

  function NamePart(name: string): string {
    DashWhitespace(RemoveSpecialCharacter(name))
  }

  /**
   * `generateNameId`: the cleaned name with whitespace turned into dashes,
   * then `-i-`, then the id. The name part holds no whitespace, and its only
   * listed character is the dash that stands for whitespace.
   */
  function GenerateNameId(name: string, id: string): (r: string)
    ensures |r| == |RemoveSpecialCharacter(name)| + 3 + |id|
    ensures r[|r| - |id|..] == id && OccursAt(r, |r| - |id| - 3)
    ensures forall i :: 0 <= i < |r| - |id| - 3 ==> !IsWhitespace(r[i]) && (IsSpecial(r[i]) ==> r[i] == '-')
    ensures r[..|r| - |id| - 3] == DashWhitespace(RemoveSpecialCharacter(name))
  {
    var p := NamePart(name);
    assert forall i :: 0 <= i < |p| ==> !IsWhitespace(p[i]) && (IsSpecial(p[i]) ==> p[i] == '-');
    p + Separator + id
  }

  // ---------------------------------------------------------------- the round trip

  predicate EndsWithDashI(t: string) {
    |t| >= 2 && t[|t| - 2] == '-' && t[|t| - 1] == 'i'
  }

  /** The cleaned name ends in whitespace followed by `i`. */
  predicate EndsWithSpaceI(c: string) {
    |c| >= 2 && IsWhitespace(c[|c| - 2]) && c[|c| - 1] == 'i'
  }

  lemma NoSeparatorWithoutDash(s: string)
    requires NoDash(s)
    ensures NoSeparator(s)
  {
    forall k | 0 <= k < |s| ensures !OccursAt(s, k) {
      if k + 3 <= |s| {
        assert s[k..k + 3][0] == s[k];
      }
    }
  }

  /** After the first separator, the last piece is the last piece of what follows it. */
  lemma LastPieceStep(s: string, k: nat)
    requires FindFrom(s, 0) == Some(k)
    ensures GetIdFromNameId(s) == GetIdFromNameId(s[k + 3..])
  {
    var rest := Split(s[k + 3..]);
    var parts := [s[..k]] + rest;
    assert Split(s) == parts;
    assert parts[|parts| - 1] == rest[|rest| - 1];
  }

  /** In `t + "-i-" + id`, the first separator is the appended one or lies wholly inside `t`. */
  lemma FirstSeparatorPosition(t: string, id: string)
    requires !EndsWithDashI(t)
    ensures FindFrom(t + Separator + id, 0).Some?
    ensures var k := FindFrom(t + Separator + id, 0).value; k == |t| || k + 3 <= |t|
  {
    var s := t + Separator + id;
    assert s[|t|..|t| + 3] == Separator;
    assert OccursAt(s, |t|);
    var k := FindFrom(s, 0).value;
    assert k <= |t|;
    assert s[k..k + 3][0] == s[k] && s[k..k + 3][1] == s[k + 1];
    assert s[|t|] == '-';
  }

  /** Splitting `t + "-i-" + id` ends in `id` unless `t` ends in `-i`, which steals the separator's dash. */
  lemma {:induction false} LastPieceAfterSeparator(t: string, id: string)
    requires !EndsWithDashI(t) && NoSeparator(id)
    ensures GetIdFromNameId(t + Separator + id) == id
    decreases |t|
  {
    var s := t + Separator + id;
    FirstSeparatorPosition(t, id);
    var k := FindFrom(s, 0).value;
    LastPieceStep(s, k);
    if k == |t| {
      assert s[k + 3..] == id;
    } else {
      var t' := t[k + 3..];
      assert s[k + 3..] == t' + Separator + id;
      assert !EndsWithDashI(t') by {
        if |t'| >= 2 {
          assert t'[|t'| - 2] == t[|t| - 2] && t'[|t'| - 1] == t[|t| - 1];
        }
      }
      LastPieceAfterSeparator(t', id);
    }
  }

  /** The dashed name part ends in `-i` exactly when the cleaned name ends in whitespace and `i`. */
  lemma DashIComesFromSpaceI(name: string)
    ensures EndsWithDashI(NamePart(name)) <==> EndsWithSpaceI(RemoveSpecialCharacter(name))
  {
    var c := RemoveSpecialCharacter(name);
    if |c| >= 2 {
      assert !IsSpecial(c[|c| - 2]);
      assert '-' in SpecialCharacters;
    }
  }

  /**
   * The link round trip as written: the product page recovers the id from
   * the slug when the id has no dash and the cleaned name does not end in
   * whitespace followed by `i`.
   */
  lemma NameIdRoundTrip(name: string, id: string)
    requires NoDash(id)
    requires !EndsWithSpaceI(RemoveSpecialCharacter(name))
    ensures GetIdFromNameId(GenerateNameId(name, id)) == id
  {
    DashIComesFromSpaceI(name);
    NoSeparatorWithoutDash(id);
    LastPieceAfterSeparator(NamePart(name), id);
  }

  /** Letters, digits and the space are not among the removed characters. */
  lemma PlainNotSpecial(c: char)
    requires 'a' <= c <= 'z' || 'A' <= c <= 'Z' || '0' <= c <= '9' || c == ' '
    ensures !IsSpecial(c)
  {
    var front := "!@%^*()+=<>?/,.:;'";
    var back := "\"&#[]~$_`-{}|\\";
    assert SpecialCharacters == front + back;
    forall i | 0 <= i < |front| ensures front[i] != c {
      var d := front[i];
      assert d < '0' || ('9' < d < 'A') || ('Z' < d < 'a') || 'z' < d;
    }
    forall i | 0 <= i < |back| ensures back[i] != c {
      var d := back[i];
      assert d < '0' || ('9' < d < 'A') || ('Z' < d < 'a') || 'z' < d;
    }
  }

  lemma CleanAoI()
    ensures RemoveSpecialCharacter("Ao i") == "Ao i"
  {
    var s := "Ao i";
    forall i | 0 <= i < |s| ensures !IsSpecial(s[i]) {
      PlainNotSpecial(s[i]);
    }
    RemoveSpecialKeepsPlain(s);
  }

  lemma DashAoI()
    ensures DashWhitespace("Ao i") == "Ao-i"
  {
    var d := DashWhitespace("Ao i");
    assert d[0] == 'A' && d[1] == 'o' && d[2] == '-' && d[3] == 'i';
  }

  lemma SlugOfAoI()
    ensures GenerateNameId("Ao i", "abc") == "Ao-i-i-abc"
  {
    CleanAoI();
    DashAoI();
    var r := GenerateNameId("Ao i", "abc");
    assert r[..4] == "Ao-i" && r[4..7] == Separator && r[7..] == "abc";
    assert r == r[..4] + r[4..7] + r[7..];
  }

  lemma FirstSeparatorOfAoI()
    ensures FindFrom("Ao-i-i-abc", 0) == Some(2)
  {
    var s := "Ao-i-i-abc";
    assert FindFrom(s, 2) == Some(2) by {
      assert s[2..5] == Separator;
    }
    assert FindFrom(s, 1) == FindFrom(s, 2) by {
      assert s[1..4][0] == 'o';
    }
    assert FindFrom(s, 0) == FindFrom(s, 1) by {
      assert s[0..3][0] == 'A';
    }
  }

  lemma NoSeparatorInIAbc()
    ensures NoSeparator("i-abc")
  {
    var rest := "i-abc";
    forall k | 0 <= k < |rest| ensures !OccursAt(rest, k) {
      if k + 3 <= |rest| {
        assert rest[k..k + 3][0] == rest[k];
        assert rest[k..k + 3][1] == rest[k + 1];
      }
    }
  }

  lemma SplitOfAoI()
    ensures GetIdFromNameId("Ao-i-i-abc") == "i-abc"
  {
    var s := "Ao-i-i-abc";
    FirstSeparatorOfAoI();
    LastPieceStep(s, 2);
    assert s[5..] == "i-abc";
    NoSeparatorInIAbc();
  }

  /** A product named "Ao i" with id "abc" gets the slug "Ao-i-i-abc", which reads back as "i-abc". */
  lemma NameEndingInSpaceIBreaksRoundTrip()
    ensures GetIdFromNameId(GenerateNameId("Ao i", "abc")) == "i-abc"
  {
    SlugOfAoI();
    SplitOfAoI();
  }

  /** The intended reading: the piece after the LAST separator, as `lastIndexOf('-i-')` finds it. */
  function GetIdFromNameIdLast(nameId: string): (id: string)
    ensures NoSeparator(nameId) ==> id == nameId
    ensures |id| <= |nameId| && id == nameId[|nameId| - |id|..]
  {
    match FindBefore(nameId, |nameId|)
    case None => nameId
    case Some(k) => nameId[k + 3..]
  }

  /** With the last separator, every product name round-trips, as long as the id has no dash. */
  lemma NameIdRoundTripLast(name: string, id: string)
    requires NoDash(id)
    ensures GetIdFromNameIdLast(GenerateNameId(name, id)) == id
  {
    var s := GenerateNameId(name, id);
    var p := |s| - |id| - 3;
    var k := FindBefore(s, |s|).value;
    assert k == p by {
      assert p <= k;
      assert s[k..k + 3][0] == s[k] && s[k..k + 3][2] == s[k + 2];
      assert s[p + 1] == 'i';
      assert forall j :: p + 3 <= j < |s| ==> s[j] == id[j - p - 3];
    }
  }

  // ---------------------------------------------------------------- hideText

  /** A JavaScript `substring` index: negatives count as 0, values past the end as the length. */
  function ClampIndex(i: int, len: nat): (r: nat)
    ensures r <= len
    ensures 0 <= i <= len ==> r == i
  {
    if i < 0 then 0 else if i > len then len else i
  }

  /** `s.substring(a, b)`: both ends clamped, and swapped when the first is larger. */
  function Substring(s: string, a: int, b: int): (r: string)
    ensures 0 <= a <= b <= |s| ==> r == s[a..b]
    ensures |r| <= |s|
  {
    var x := ClampIndex(a, |s|);
    var y := ClampIndex(b, |s|);
    if x <= y then s[x..y] else s[y..x]
  }

  /** The characters `.` does not match: line terminators. */
  predicate IsLineTerminator(c: char) {
    c == '\n' || c == '\r' || c == '\U{2028}' || c == '\U{2029}'
  }

  /** `.replace(/./g, replaceWith)`: every character but a line terminator becomes `replaceWith`. */
  function MaskChars(m: string, replaceWith: string): (r: string)
    ensures (forall i :: 0 <= i < |m| ==> !IsLineTerminator(m[i])) ==> |r| == |m| * |replaceWith|
    ensures |replaceWith| == 1 ==> |r| == |m|
    ensures |replaceWith| == 1 ==> forall i :: 0 <= i < |m| ==>
      r[i] == (if IsLineTerminator(m[i]) then m[i] else replaceWith[0])
  {
    if m == [] then []
    else (if IsLineTerminator(m[0]) then [m[0]] else replaceWith) + MaskChars(m[1..], replaceWith)
  }

  /**
   * `hideText`: empty when `end <= start`; otherwise the text before
   * `start` and from `end` on is kept and the part between is masked.
   */
  function HideText(text: string, start: int := 0, end: int := |text|, replaceWith: string := "*"): (r: string)
    ensures end <= start ==> r == ""
    ensures 0 <= start < end <= |text| ==>
      && |r| == start + |MaskChars(text[start..end], replaceWith)| + (|text| - end)
      && r[..start] == text[..start]
      && r[|r| - (|text| - end)..] == text[end..]
      && r[start..|r| - (|text| - end)] == MaskChars(text[start..end], replaceWith)
  {
    if end <= start then ""
    else
      var pre := Substring(text, 0, start);
      var mid := MaskChars(Substring(text, start, end), replaceWith);
      var post := Substring(text, end, |text|);
      assert 0 <= start < end <= |text| ==>
        pre == text[..start] && post == text[end..] && Substring(text, start, end) == text[start..end];
      pre + mid + post
  }

  /** With a one-character mask and no line break in the masked part, the length is unchanged. */
  lemma HideTextKeepsLength(text: string, start: int, end: int, replaceWith: string)
    requires 0 <= start < end <= |text| && |replaceWith| == 1
    ensures |HideText(text, start, end, replaceWith)| == |text|
  {
  }

  /** A range that begins at or past the end of the text masks nothing. */
  lemma HideTextPastEnd(text: string, start: int, end: int, replaceWith: string)
    requires |text| <= start < end
    ensures HideText(text, start, end, replaceWith) == text
  {
  }

  /** With all defaults, a one-line text is masked entirely with stars. */
  lemma HideTextDefaults(text: string)
    requires |text| > 0
    requires forall i :: 0 <= i < |text| ==> !IsLineTerminator(text[i])
    ensures var r := HideText(text);
      |r| == |text| && forall i :: 0 <= i < |r| ==> r[i] == '*'
  {
    assert text[0..|text|] == text;
  }
}
