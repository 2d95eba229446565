/** The textual test for IPv6 addresses, against the two forms without an IPv4 tail of section 2.2 of RFC 4291. */
module IPv6 {
  import opened Wrappers

  // ----- Splitting text ---------------------------------------------------------------------------

  /** `str.split` with a one-character separator. */
  function Split(text: string, sep: char): (parts: seq<string>)
    ensures parts != []
    ensures forall i :: 0 <= i < |parts| ==> sep !in parts[i]
  {
    if text == "" then [""]
    else
      var rest := Split(text[1..], sep);
      if text[0] == sep then [""] + rest else [[text[0]] + rest[0]] + rest[1..]
  }

  /** The parts with a colon between each two. */
  function Joined(parts: seq<string>): string {
    if parts == [] then ""
    else if |parts| == 1 then parts[0]
    else parts[0] + ":" + Joined(parts[1..])
  }

  ghost predicate ColonFree(parts: seq<string>) {
    forall i :: 0 <= i < |parts| ==> ':' !in parts[i]
  }

  lemma {:induction false} SplitHead(head: string, rest: string)
    requires ':' !in head
    ensures Split(head + ":" + rest, ':') == [head] + Split(rest, ':')
    ensures Split(head, ':') == [head]
  {
    if head == "" {
      assert (head + ":" + rest)[1..] == rest;
    } else {
      SplitHead(head[1..], rest);
      assert (head + ":" + rest)[1..] == head[1..] + ":" + rest;
      assert [head[0]] + head[1..] == head;
    }
  }

  lemma {:induction false} SplitJoined(parts: seq<string>)
    requires parts != [] && ColonFree(parts)
    ensures Split(Joined(parts), ':') == parts
  {
    if |parts| == 1 {
      SplitHead(parts[0], "");
    } else {
      SplitJoined(parts[1..]);
      SplitHead(parts[0], Joined(parts[1..]));
    }
  }

  lemma {:induction false} JoinedSplit(text: string)
    ensures Joined(Split(text, ':')) == text
  {
    if text != "" {
      JoinedSplit(text[1..]);
      var rest := Split(text[1..], ':');
      if text[0] == ':' {
        assert ([""] + rest)[1..] == rest;
        assert text == "" + ":" + text[1..];
      } else {
        var parts := [[text[0]] + rest[0]] + rest[1..];
        assert parts[1..] == rest[1..];
        assert text == [text[0]] + text[1..];
      }
    }
  }

  // ----- isipv6 -------------------------------------------------------------------------------------

  datatype Verdict = Accepted | Refused | AttributeError

  predicate IsHexDigit(c: char) {
    '0' <= c <= '9' || 'a' <= c <= 'f' || 'A' <= c <= 'F'
  }

  function HexDigit(c: char): (d: nat)
    requires IsHexDigit(c)
    ensures d < 16
  {
    if c <= '9' then (c - '0') as nat
    else if c <= 'F' then (c - 'A') as nat + 10
    else (c - 'a') as nat + 10
  }

  predicate AllHex(s: string) {
    forall i :: 0 <= i < |s| ==> IsHexDigit(s[i])
  }

  function HexValue(s: string): nat
    requires AllHex(s)
  {
    if s == "" then 0 else 16 * HexValue(s[..|s| - 1]) + HexDigit(s[|s| - 1])
  }

  /** `int(part, 16)`: takes more than plain hexadecimal digits, like signs, underscores and blanks, but reads
      plain digits as they are. No value stands for a ValueError. */
  ghost predicate ReadsHex(number: string -> Option<int>) {
    forall s :: s != "" && AllHex(s) ==> number(s) == Some(HexValue(s))
  }

  function Blanks(groups: seq<string>): (n: nat)
    ensures n <= |groups|
  {
    if groups == [] then 0
    else Blanks(groups[..|groups| - 1]) + if groups[|groups| - 1] == "" then 1 else 0
  }

  predicate GroupOk(part: string, number: string -> Option<int>) {
    part == "" || (number(part).Some? && 0 <= number(part).value <= 65536 && |part| <= 4)
  }

  /** The tests after the loop, for text without an IPv4 tail. */
  predicate ShapeOk(groups: seq<string>)
    requires groups != []
  {
    var blank := Blanks(groups);
    var parts := |groups| - blank;
    var first, last := groups[0] != "", groups[|groups| - 1] != "";
    || (blank == 0 && parts == 8)
    || (blank == 1 && last && first && parts < 8)
    || (blank == 2 && parts < 8 && ((first && !last) || (!first && last)))
    || (blank == 3 && parts == 0)
  }

  /** An IPv4 tail runs into a method that does not exist. */
  function Judged(groups: seq<string>, number: string -> Option<int>): Verdict
    requires groups != []
  {
    if |groups| == 1 then Refused
    else if '.' in groups[|groups| - 1] then AttributeError
    else if (forall i :: 0 <= i < |groups| ==> GroupOk(groups[i], number)) && ShapeOk(groups) then Accepted
    else Refused
  }

  lemma {:induction false} DotSplits(text: string)
    ensures |Split(text, '.')| > 1 <==> '.' in text
  {
    if text != "" {
      DotSplits(text[1..]);
      assert text == [text[0]] + text[1..];
    }
  }

  method IsIPv6(value: string, number: string -> Option<int>) returns (v: Verdict)
    ensures v == Judged(Split(value, ':'), number)
  {
    var groups := Split(value, ':');
    if |groups| == 1 {
      return Refused;
    }
    var last := groups[|groups| - 1];
    DotSplits(last);
    if |Split(last, '.')| > 1 {
      return AttributeError;
    }
    var ok, countBlank := CheckGroups(groups, number);
    if !ok {
      return Refused;
    }
    var partCount := |groups| - countBlank;
    if countBlank == 0 && partCount == 8 {
      return Accepted;
    } else if countBlank == 1 && last != "" && groups[0] != "" && partCount < 8 {
      return Accepted;
    } else if countBlank == 2 && partCount < 8
              && ((groups[0] != "" && last == "") || (groups[0] == "" && last != "")) {
      return Accepted;
    } else if countBlank == 3 && partCount == 0 {
      return Accepted;
    }
    return Refused;
  }

  /** The loop over the groups. */
  method CheckGroups(groups: seq<string>, number: string -> Option<int>) returns (ok: bool, countBlank: nat)
    ensures ok <==> forall i :: 0 <= i < |groups| ==> GroupOk(groups[i], number)
    ensures ok ==> countBlank == Blanks(groups)
  {
    countBlank := 0;
    for i := 0 to |groups|
      invariant countBlank == Blanks(groups[..i])
      invariant forall k :: 0 <= k < i ==> GroupOk(groups[k], number)
    {
      assert groups[..i + 1][..i] == groups[..i];
      var part := groups[i];
      if part == "" {
        countBlank := countBlank + 1;
      } else {
        var num := number(part);
        if num.None? || !(0 <= num.value <= 65536) || |part| > 4 {
          assert !GroupOk(groups[i], number);
          return false, countBlank;
        }
      }
    }
    assert groups[..|groups|] == groups;
    ok := true;
  }

  // ----- The forms of RFC 4291 -----------------------------------------------------------------------

  predicate HexGroup(s: string) {
    1 <= |s| <= 4 && AllHex(s)
  }

  predicate HexGroups(groups: seq<string>) {
    forall i :: 0 <= i < |groups| ==> HexGroup(groups[i])
  }

  /** Form 1: eight groups. */
  ghost predicate Full(text: string) {
    exists groups :: |groups| == 8 && HexGroups(groups) && text == Joined(groups)
  }

  /** Form 2: one `::` for one or more groups of zeros, anywhere. */
  ghost predicate Compressed(text: string) {
    exists left, right :: |left| + |right| <= 7 && HexGroups(left) && HexGroups(right)
      && text == Joined(left) + "::" + Joined(right)
  }

  /** Not an address: besides a `::` inside, a single colon before everything or after everything. */
  ghost predicate StrayColon(text: string) {
    exists left, right :: left != [] && right != [] && |left| + |right| <= 7 && HexGroups(left) && HexGroups(right)
      && (text == ":" + (Joined(left) + "::" + Joined(right)) || text == Joined(left) + "::" + Joined(right) + ":")
  }

  lemma {:induction false} HexValueBound(s: string, n: nat)
    requires AllHex(s) && |s| <= n
    ensures n == 0 ==> HexValue(s) == 0
    ensures n == 1 ==> HexValue(s) < 16
    ensures n == 2 ==> HexValue(s) < 256
    ensures n == 3 ==> HexValue(s) < 4096
    ensures n == 4 ==> HexValue(s) < 65536
  {
    if s != "" {
      HexValueBound(s[..|s| - 1], n - 1);
    }
  }

  lemma HexGroupOk(s: string, number: string -> Option<int>)
    requires ReadsHex(number) && HexGroup(s)
    ensures GroupOk(s, number) && s != "" && ':' !in s && '.' !in s
  {
    HexValueBound(s, 4);
  }

  lemma {:induction false} BlanksConcat(a: seq<string>, b: seq<string>)
    ensures Blanks(a + b) == Blanks(a) + Blanks(b)
  {
    if b == [] {
      assert a + b == a;
    } else {
      BlanksConcat(a, b[..|b| - 1]);
      assert (a + b)[..|a + b| - 1] == a + b[..|b| - 1];
    }
  }

  lemma {:induction false} NoBlanks(groups: seq<string>)
    ensures Blanks(groups) == 0 <==> "" !in groups
  {
    if groups != [] {
      NoBlanks(groups[..|groups| - 1]);
      assert groups == groups[..|groups| - 1] + [groups[|groups| - 1]];
    }
  }

  lemma HexGroupsHaveNoBlanks(groups: seq<string>)
    requires HexGroups(groups)
    ensures Blanks(groups) == 0
  {
    NoBlanks(groups);
  }

  lemma {:induction false} JoinedConcat(a: seq<string>, b: seq<string>)
    requires a != [] && b != []
    ensures Joined(a + b) == Joined(a) + ":" + Joined(b)
  {
    if |a| == 1 {
      assert (a + b)[1..] == b;
    } else {
      JoinedConcat(a[1..], b);
      assert (a + b)[1..] == a[1..] + b;
    }
  }

  function OrBlank(groups: seq<string>): (r: seq<string>)
    ensures r != []
  {
    if groups == [] then [""] else groups
  }

  /** The groups of a compressed address: a missing side is one more blank. */
  function Around(left: seq<string>, right: seq<string>): seq<string> {
    OrBlank(left) + [""] + OrBlank(right)
  }

  lemma JoinedAround(left: seq<string>, right: seq<string>)
    ensures Joined(Around(left, right)) == Joined(left) + "::" + Joined(right)
  {
    JoinedConcat(OrBlank(left), [""]);
    JoinedConcat(OrBlank(left) + [""], OrBlank(right));
    assert Joined([""]) == "";
    assert Joined(left) + ":" + "" + ":" + Joined(right) == Joined(left) + "::" + Joined(right);
  }

  lemma OneBlank(groups: seq<string>) returns (i: nat)
    requires Blanks(groups) == 1
    ensures i < |groups| && groups == groups[..i] + [""] + groups[i + 1..]
    ensures "" !in groups[..i] && "" !in groups[i + 1..]
  {
    NoBlanks(groups);
    i :| i < |groups| && groups[i] == "";
    assert groups == groups[..i] + [""] + groups[i + 1..];
    BlanksConcat(groups[..i] + [""], groups[i + 1..]);
    BlanksConcat(groups[..i], [""]);
    assert Blanks([""]) == 1 by {
      assert [""][..0] == [];
    }
    NoBlanks(groups[..i]);
    NoBlanks(groups[i + 1..]);
  }

  /** Nothing but hexadecimal groups and blanks. */
  ghost predicate Plain(groups: seq<string>) {
    forall i :: 0 <= i < |groups| ==> groups[i] == "" || HexGroup(groups[i])
  }

  lemma PlainWithoutBlanks(groups: seq<string>)
    requires Plain(groups) && "" !in groups
    ensures HexGroups(groups)
  {
  }

  ghost predicate IsFull(groups: seq<string>) {
    |groups| == 8 && HexGroups(groups)
  }

  ghost predicate IsCompressed(groups: seq<string>, left: seq<string>, right: seq<string>) {
    |left| + |right| <= 7 && HexGroups(left) && HexGroups(right) && groups == Around(left, right)
  }

  ghost predicate IsStray(groups: seq<string>, left: seq<string>, right: seq<string>) {
    && left != [] && right != [] && |left| + |right| <= 7 && HexGroups(left) && HexGroups(right)
    && (groups == [""] + Around(left, right) || groups == Around(left, right) + [""])
  }

  lemma BlanksAround(left: seq<string>, right: seq<string>)
    requires HexGroups(left) && HexGroups(right)
    ensures Blanks(Around(left, right)) == 1 + (if left == [] then 1 else 0) + (if right == [] then 1 else 0)
  {
    HexGroupsHaveNoBlanks(left);
    HexGroupsHaveNoBlanks(right);
    BlanksConcat(OrBlank(left) + [""], OrBlank(right));
    BlanksConcat(OrBlank(left), [""]);
    assert Blanks([""]) == 1 by {
      assert [""][..0] == [];
    }
  }

  lemma AroundIsPlain(left: seq<string>, right: seq<string>)
    requires HexGroups(left) && HexGroups(right)
    ensures Plain(Around(left, right))
    ensures var around := Around(left, right);
      && (around[0] == "" <==> left == []) && (around[|around| - 1] == "" <==> right == [])
      && |around| == |left| + |right| + Blanks(around)
  {
    BlanksAround(left, right);
    var around := Around(left, right);
    assert left != [] ==> around[0] == left[0];
    assert right != [] ==> around[|around| - 1] == right[|right| - 1];
    forall i | 0 <= i < |around| ensures around[i] == "" || HexGroup(around[i]) {
      if left != [] && i < |left| {
        assert around[i] == left[i];
      } else if right != [] && i >= |around| - |right| {
        assert around[i] == right[i - (|around| - |right|)];
      }
    }
  }

  lemma CompressedHasShape(left: seq<string>, right: seq<string>)
    requires |left| + |right| <= 7 && HexGroups(left) && HexGroups(right)
    ensures ShapeOk(Around(left, right))
  {
    BlanksAround(left, right);
    AroundIsPlain(left, right);
  }

  lemma StrayHasShape(groups: seq<string>, left: seq<string>, right: seq<string>)
    requires IsStray(groups, left, right)
    ensures groups != [] && ShapeOk(groups) && Plain(groups)
  {
    var around := Around(left, right);
    BlanksAround(left, right);
    AroundIsPlain(left, right);
    assert Blanks([""]) == 1 by {
      assert [""][..0] == [];
    }
    if groups == [""] + around {
      BlanksConcat([""], around);
      assert forall i :: 0 < i < |groups| ==> groups[i] == around[i - 1];
      assert groups[|groups| - 1] == around[|around| - 1];
    } else {
      BlanksConcat(around, [""]);
      assert forall i :: 0 <= i < |around| ==> groups[i] == around[i];
    }
  }

  lemma FormsHaveShape(groups: seq<string>, left: seq<string>, right: seq<string>)
    requires IsFull(groups) || IsCompressed(groups, left, right) || IsStray(groups, left, right)
    ensures groups != [] && ShapeOk(groups) && Plain(groups)
  {
    if IsFull(groups) {
      HexGroupsHaveNoBlanks(groups);
    } else if IsCompressed(groups, left, right) {
      AroundIsPlain(left, right);
      CompressedHasShape(left, right);
    } else {
      StrayHasShape(groups, left, right);
    }
  }

  /** Around a single blank. */
  lemma AroundOneBlank(groups: seq<string>) returns (left: seq<string>, right: seq<string>)
    requires Plain(groups) && Blanks(groups) == 1
    ensures HexGroups(left) && HexGroups(right) && groups == left + [""] + right
  {
    var i := OneBlank(groups);
    left, right := groups[..i], groups[i + 1..];
    PlainWithoutBlanks(left);
    PlainWithoutBlanks(right);
  }

  lemma BlankAdded(groups: seq<string>)
    ensures Blanks([""] + groups) == Blanks(groups + [""]) == Blanks(groups) + 1
  {
    BlanksConcat([""], groups);
    BlanksConcat(groups, [""]);
    assert Blanks([""]) == 1 by {
      assert [""][..0] == [];
    }
  }

  lemma BlankAtEnd(groups: seq<string>) returns (left: seq<string>, right: seq<string>)
    requires groups != [] && groups[0] != "" && Plain(groups) && |groups| - Blanks(groups) < 8
    requires groups[|groups| - 1] == "" && Blanks(groups) == 2
    ensures IsCompressed(groups, left, right) || IsStray(groups, left, right)
  {
    var init := groups[..|groups| - 1];
    assert groups == init + [""];
    BlankAdded(init);
    left, right := AroundOneBlank(init);
    assert groups[0] == (left + [""])[0];
    assert right == [] ==> groups == Around(left, right);
    assert right != [] ==> groups == Around(left, right) + [""];
  }

  lemma BlankAtStart(groups: seq<string>) returns (left: seq<string>, right: seq<string>)
    requires groups != [] && groups[0] == "" && Plain(groups) && |groups| - Blanks(groups) < 8
    requires groups[|groups| - 1] != "" && Blanks(groups) == 2
    ensures IsCompressed(groups, left, right) || IsStray(groups, left, right)
  {
    assert groups == [""] + groups[1..];
    BlankAdded(groups[1..]);
    left, right := AroundOneBlank(groups[1..]);
    assert groups == [""] + left + [""] + right;
    assert groups[|groups| - 1] == ([""] + right)[|right|];
    assert left == [] ==> groups == Around(left, right);
    assert left != [] ==> groups == [""] + Around(left, right);
  }

  lemma TwoBlanks(groups: seq<string>) returns (left: seq<string>, right: seq<string>)
    requires groups != [] && Plain(groups) && ShapeOk(groups) && Blanks(groups) == 2
    ensures IsCompressed(groups, left, right) || IsStray(groups, left, right)
  {
    if groups[0] == "" {
      left, right := BlankAtStart(groups);
    } else {
      left, right := BlankAtEnd(groups);
    }
  }

  lemma ShapesAreForms(groups: seq<string>) returns (left: seq<string>, right: seq<string>)
    requires groups != [] && Plain(groups) && ShapeOk(groups)
    ensures IsFull(groups) || IsCompressed(groups, left, right) || IsStray(groups, left, right)
  {
    left, right := [], [];
    if Blanks(groups) == 0 {
      NoBlanks(groups);
    } else if Blanks(groups) == 1 {
      left, right := AroundOneBlank(groups);
      assert groups[0] == (left + [""])[0];
      assert groups[|groups| - 1] == ([""] + right)[|right|];
    } else if Blanks(groups) == 2 {
      left, right := TwoBlanks(groups);
    } else {
      AllBlank(groups);
      assert groups == Around([], []);
    }
  }

  lemma {:induction false} AllBlank(groups: seq<string>)
    requires Blanks(groups) == |groups|
    ensures forall i :: 0 <= i < |groups| ==> groups[i] == ""
  {
    if groups != [] {
      AllBlank(groups[..|groups| - 1]);
    }
  }

  // ----- What the test accepts -------------------------------------------------------------------------

  lemma PlainIsJudgedByShape(groups: seq<string>, number: string -> Option<int>)
    requires ReadsHex(number) && groups != [] && Plain(groups) && |groups| > 1
    ensures Judged(groups, number) == if ShapeOk(groups) then Accepted else Refused
  {
    forall i | 0 <= i < |groups| ensures GroupOk(groups[i], number) && '.' !in groups[i] {
      if groups[i] != "" {
        HexGroupOk(groups[i], number);
      }
    }
  }

  lemma AroundIsColonFree(left: seq<string>, right: seq<string>)
    requires HexGroups(left) && HexGroups(right)
    ensures ColonFree(Around(left, right))
  {
    AroundIsPlain(left, right);
    var around := Around(left, right);
    forall i | 0 <= i < |around| ensures ':' !in around[i] {
      assert around[i] == "" || HexGroup(around[i]);
    }
  }

  lemma SplitAround(left: seq<string>, right: seq<string>)
    requires HexGroups(left) && HexGroups(right)
    ensures Split(Joined(left) + "::" + Joined(right), ':') == Around(left, right)
  {
    AroundIsColonFree(left, right);
    JoinedAround(left, right);
    SplitJoined(Around(left, right));
  }

  lemma JoinedEnds(parts: seq<string>)
    requires parts != []
    ensures Joined([""] + parts) == ":" + Joined(parts)
    ensures Joined(parts + [""]) == Joined(parts) + ":"
  {
    JoinedConcat([""], parts);
    JoinedConcat(parts, [""]);
  }

  lemma SplitEnds(parts: seq<string>)
    requires parts != [] && ColonFree(parts)
    ensures Split(":" + Joined(parts), ':') == [""] + parts
    ensures Split(Joined(parts) + ":", ':') == parts + [""]
  {
    JoinedEnds(parts);
    SplitJoined([""] + parts);
    SplitJoined(parts + [""]);
  }

  lemma HexGroupsAreColonFree(groups: seq<string>)
    requires HexGroups(groups)
    ensures ColonFree(groups)
  {
  }

  /** Every address of form 1 or 2 is accepted, whatever else `int` may read. */
  lemma FormsAreAccepted(text: string, number: string -> Option<int>)
    requires ReadsHex(number) && (Full(text) || Compressed(text))
    ensures Judged(Split(text, ':'), number) == Accepted
  {
    if Full(text) {
      var groups :| |groups| == 8 && HexGroups(groups) && text == Joined(groups);
      HexGroupsAreColonFree(groups);
      SplitJoined(groups);
      FormsHaveShape(groups, [], []);
      PlainIsJudgedByShape(groups, number);
    } else {
      var left, right :| |left| + |right| <= 7 && HexGroups(left) && HexGroups(right)
        && text == Joined(left) + "::" + Joined(right);
      SplitAround(left, right);
      FormsHaveShape(Around(left, right), left, right);
      PlainIsJudgedByShape(Around(left, right), number);
    }
  }

  lemma StraysAreAccepted(text: string, number: string -> Option<int>)
    requires ReadsHex(number) && StrayColon(text)
    ensures Judged(Split(text, ':'), number) == Accepted
  {
    var left, right :| left != [] && right != [] && |left| + |right| <= 7 && HexGroups(left) && HexGroups(right)
      && (text == ":" + (Joined(left) + "::" + Joined(right)) || text == Joined(left) + "::" + Joined(right) + ":");
    JoinedAround(left, right);
    AroundIsColonFree(left, right);
    SplitEnds(Around(left, right));
    FormsHaveShape(Split(text, ':'), left, right);
    PlainIsJudgedByShape(Split(text, ':'), number);
  }

  /** A stray colon adds a blank at one end, next to a group that is not blank. */
  lemma StraySplits(text: string) returns (groups: seq<string>)
    requires StrayColon(text)
    ensures groups == Split(text, ':') && Blanks(groups) == 2 && |groups| > 2
    ensures (groups[0] == "" && groups[1] != "" && groups[|groups| - 1] != "")
         || (groups[0] != "" && groups[|groups| - 2] != "" && groups[|groups| - 1] == "")
  {
    var left, right :| left != [] && right != [] && |left| + |right| <= 7 && HexGroups(left) && HexGroups(right)
      && (text == ":" + (Joined(left) + "::" + Joined(right)) || text == Joined(left) + "::" + Joined(right) + ":");
    groups := Split(text, ':');
    StrayGroups(left, right);
    BlankAdded(Around(left, right));
    NextToBlank(Around(left, right));
  }

  lemma StrayGroups(left: seq<string>, right: seq<string>)
    requires left != [] && right != [] && HexGroups(left) && HexGroups(right)
    ensures var text, around := Joined(left) + "::" + Joined(right), Around(left, right);
      && Split(":" + text, ':') == [""] + around && Split(text + ":", ':') == around + [""]
      && Blanks(around) == 1 && |around| > 2 && around[0] != "" && around[|around| - 1] != ""
  {
    JoinedAround(left, right);
    AroundIsColonFree(left, right);
    SplitEnds(Around(left, right));
    AroundInside(left, right);
  }

  lemma AroundInside(left: seq<string>, right: seq<string>)
    requires left != [] && right != [] && HexGroups(left) && HexGroups(right)
    ensures var around := Around(left, right);
      Blanks(around) == 1 && |around| > 2 && around[0] != "" && around[|around| - 1] != ""
  {
    AroundIsPlain(left, right);
    BlanksAround(left, right);
  }

  lemma NextToBlank(groups: seq<string>)
    requires groups != []
    ensures ([""] + groups)[1] == groups[0] && ([""] + groups)[|groups|] == groups[|groups| - 1]
    ensures (groups + [""])[0] == groups[0] && (groups + [""])[|groups| - 1] == groups[|groups| - 1]
  {
  }

  /** Where a compressed address ends in a blank, two blanks meet. */
  lemma BlankEndsMeet(left: seq<string>, right: seq<string>)
    requires HexGroups(left) && HexGroups(right)
    ensures var around := Around(left, right);
      && |around| > 2
      && (around[0] == "" ==> around[1] == "") && (around[|around| - 1] == "" ==> around[|around| - 2] == "")
  {
    AroundIsPlain(left, right);
    assert left == [] ==> Around(left, right)[1] == "";
  }

  /** Text with a stray colon is of neither form. */
  lemma StrayIsNoAddress(text: string)
    requires StrayColon(text)
    ensures !Full(text) && !Compressed(text)
  {
    var groups := StraySplits(text);
    if Full(text) {
      var full :| |full| == 8 && HexGroups(full) && text == Joined(full);
      HexGroupsAreColonFree(full);
      SplitJoined(full);
      HexGroupsHaveNoBlanks(full);
    }
    if Compressed(text) {
      var left, right :| |left| + |right| <= 7 && HexGroups(left) && HexGroups(right)
        && text == Joined(left) + "::" + Joined(right);
      SplitAround(left, right);
      BlankEndsMeet(left, right);
    }
  }

  lemma AddressesArePlain(text: string)
    requires Full(text) || Compressed(text)
    ensures Plain(Split(text, ':'))
  {
    if Full(text) {
      var groups :| |groups| == 8 && HexGroups(groups) && text == Joined(groups);
      HexGroupsAreColonFree(groups);
      SplitJoined(groups);
    } else {
      var left, right :| |left| + |right| <= 7 && HexGroups(left) && HexGroups(right)
        && text == Joined(left) + "::" + Joined(right);
      SplitAround(left, right);
      AroundIsPlain(left, right);
    }
  }

  /** Every address is accepted, and accepted text is an address exactly if it has nothing but hexadecimal digits
      and colons, and no stray colon. */
  lemma RightExactly(text: string, number: string -> Option<int>)
    requires ReadsHex(number)
    ensures Full(text) || Compressed(text) ==> Judged(Split(text, ':'), number) == Accepted
    ensures Judged(Split(text, ':'), number) == Accepted ==>
      (Full(text) || Compressed(text) <==> Plain(Split(text, ':')) && !StrayColon(text))
  {
    if Full(text) || Compressed(text) {
      FormsAreAccepted(text, number);
      AddressesArePlain(text);
    }
    if Plain(Split(text, ':')) {
      AcceptedExactly(text, number);
    }
    if StrayColon(text) {
      StrayIsNoAddress(text);
    }
  }

  /** A text with a stray colon, and one with a sign, which `int` reads, are accepted. */
  lemma AcceptsWrongText(number: string -> Option<int>)
    requires ReadsHex(number) && number("+1") == Some(1)
    ensures Judged(Split(":1::2", ':'), number) == Accepted && !Full(":1::2") && !Compressed(":1::2")
    ensures Judged(Split("+1::2", ':'), number) == Accepted && !Full("+1::2") && !Compressed("+1::2")
  {
    AcceptsStrayColon(number);
    AcceptsSign(number);
  }

  lemma AcceptsStrayColon(number: string -> Option<int>)
    requires ReadsHex(number)
    ensures Judged(Split(":1::2", ':'), number) == Accepted && !Full(":1::2") && !Compressed(":1::2")
  {
    assert HexGroups(["1"]) && HexGroups(["2"]) && Joined(["1"]) == "1" && Joined(["2"]) == "2";
    assert ":1::2" == ":" + (Joined(["1"]) + "::" + Joined(["2"]));
    assert StrayColon(":1::2");
    StraysAreAccepted(":1::2", number);
    StrayIsNoAddress(":1::2");
  }

  lemma AcceptsSign(number: string -> Option<int>)
    requires ReadsHex(number) && number("+1") == Some(1)
    ensures Judged(Split("+1::2", ':'), number) == Accepted && !Full("+1::2") && !Compressed("+1::2")
  {
    var groups := ["+1", "", "2"];
    SignSplits();
    HexGroupOk("2", number);
    assert Blanks(groups) == 1 by {
      BlanksConcat(["+1", ""], ["2"]);
      BlanksConcat(["+1"], [""]);
      NoBlanks(["+1"]);
      NoBlanks(["2"]);
      assert [""][..0] == [];
    }
    assert !IsHexDigit("+1"[0]);
    assert !HexGroup(groups[0]);
    if Full("+1::2") || Compressed("+1::2") {
      AddressesArePlain("+1::2");
      assert false;
    }
  }

  lemma SignSplits()
    ensures Split("+1::2", ':') == ["+1", "", "2"]
  {
    var groups := ["+1", "", "2"];
    assert groups[1..] == ["", "2"];
    assert groups[1..][1..] == ["2"];
    assert Joined(["2"]) == "2";
    assert Joined(["", "2"]) == "" + ":" + "2";
    assert Joined(groups) == "+1" + ":" + ("" + ":" + "2");
    assert "+1" + ":" + ("" + ":" + "2") == "+1::2";
    SplitJoined(groups);
  }

  /** Of the texts made of hexadecimal groups and colons, the test accepts exactly the two forms, and those with
      a stray colon at one end. */
  lemma AcceptedExactly(text: string, number: string -> Option<int>)
    requires ReadsHex(number) && Plain(Split(text, ':'))
    ensures Judged(Split(text, ':'), number) == Accepted <==> Full(text) || Compressed(text) || StrayColon(text)
  {
    if Full(text) || Compressed(text) {
      FormsAreAccepted(text, number);
    } else if StrayColon(text) {
      StraysAreAccepted(text, number);
    }
    var groups := Split(text, ':');
    if Judged(groups, number) == Accepted {
      PlainIsJudgedByShape(groups, number);
      var left, right := ShapesAreForms(groups);
      JoinedSplit(text);
      if IsFull(groups) {
        assert Full(text);
      } else if IsCompressed(groups, left, right) {
        JoinedAround(left, right);
        assert Compressed(text);
      } else {
        JoinedStray(groups, left, right);
        assert StrayColon(text);
      }
    }
  }

  lemma JoinedStray(groups: seq<string>, left: seq<string>, right: seq<string>)
    requires IsStray(groups, left, right)
    ensures Joined(groups) == ":" + (Joined(left) + "::" + Joined(right))
         || Joined(groups) == Joined(left) + "::" + Joined(right) + ":"
  {
    JoinedAround(left, right);
    JoinedEnds(Around(left, right));
  }

  /** Whatever `int` reads, accepted text has at most eight groups that are not blank, none longer than four. */
  lemma AcceptedIsBounded(text: string, number: string -> Option<int>)
    requires Judged(Split(text, ':'), number) == Accepted
    ensures var groups := Split(text, ':');
      && 1 < |groups| && |groups| - Blanks(groups) <= 8
      && forall i :: 0 <= i < |groups| && groups[i] != "" ==>
        |groups[i]| <= 4 && number(groups[i]).Some? && 0 <= number(groups[i]).value <= 65536
  {
    forall i | 0 <= i < |Split(text, ':')| ensures GroupOk(Split(text, ':')[i], number) {
    }
  }

  ghost predicate InTail(text: string, d: nat) {
    d < |text| && text[d] == '.' && ':' in text[..d] && forall j :: d <= j < |text| ==> text[j] != ':'
  }

  /** The test ends in an AttributeError exactly if there is a dot after the last of one or more colons. */
  lemma FailsExactly(text: string, number: string -> Option<int>)
    ensures Judged(Split(text, ':'), number) == AttributeError <==> exists d :: InTail(text, d)
  {
    if k :| 0 <= k < |text| && text[k] == ':' && ':' !in text[k + 1..] {
      LastGroup(text, k);
      DotInTail(text, k);
    } else {
      NoColon(text);
      SplitHead(text, "");
    }
  }

  lemma DotInTail(text: string, k: nat)
    requires k < |text| && text[k] == ':' && ':' !in text[k + 1..]
    ensures '.' in text[k + 1..] <==> exists d :: InTail(text, d)
  {
    var tail := text[k + 1..];
    if i :| 0 <= i < |tail| && tail[i] == '.' {
      assert text[..k + 1 + i][k] == ':';
      assert InTail(text, k + 1 + i);
    }
    if d: nat :| InTail(text, d) {
      assert tail[d - k - 1] == '.';
    }
  }

  lemma {:induction false} LastGroup(text: string, k: nat)
    requires k < |text| && text[k] == ':' && ':' !in text[k + 1..]
    ensures var groups := Split(text, ':'); |groups| > 1 && groups[|groups| - 1] == text[k + 1..]
  {
    if k == 0 {
      SplitHead(text[1..], "");
    } else {
      assert text[1..][k..] == text[k + 1..];
      LastGroup(text[1..], k - 1);
    }
  }

  lemma {:induction false} NoColon(text: string)
    requires forall k :: 0 <= k < |text| && text[k] == ':' ==> ':' in text[k + 1..]
    ensures ':' !in text
  {
    if text != "" {
      forall k | 0 <= k < |text[1..]| && text[1..][k] == ':' ensures ':' in text[1..][k + 1..] {
        assert text[1..][k + 1..] == text[k + 2..];
      }
      NoColon(text[1..]);
    }
  }
}
