/** Knowledge export (`api/knowledge.py`): composite cursors and the walk over every page of every space. */
module ExportCursor {
  import opened Text

  // ---------------------------------------------------------------- decimal numbers

  predicate IsBlank(c: char) { c in {' ', '\t', '\n', '\r', '\U{000B}', '\U{000C}'} }

  function DigitOf(c: char): nat
    requires IsDigit(c)
  {
    c as int - '0' as int
  }

  /** Digits with single underscores between them, as `int` reads them; None if malformed. */
  function ReadDigits(s: string): Option<nat> {
    if s == "" then None
    else
      var last := s[|s| - 1];
      if !IsDigit(last) then None
      else if |s| == 1 then Some(DigitOf(last))
      else
        var init := s[..|s| - 1];
        var head := if init[|init| - 1] == '_' then init[..|init| - 1] else init;
        match ReadDigits(head)
        case None => None
        case Some(n) => Some(10 * n + DigitOf(last))
  }

  function TrimLeft(s: string): string {
    if s != "" && IsBlank(s[0]) then TrimLeft(s[1..]) else s
  }

  function TrimRight(s: string): string {
    if s != "" && IsBlank(s[|s| - 1]) then TrimRight(s[..|s| - 1]) else s
  }

  /** `int(text)`: surrounding blanks, one sign, digits with underscores. */
  function ParseInt(text: string): Option<int> {
    var s := TrimRight(TrimLeft(text));
    if s == "" then None
    else
      var signed := s[0] == '+' || s[0] == '-';
      match ReadDigits(if signed then s[1..] else s)
      case None => None
      case Some(n) => Some(if s[0] == '-' then -(n as int) else n)
  }

  lemma {:induction false} ReadDecimal(n: nat)
    ensures ReadDigits(Decimal(n)) == Some(n)
  {
    if n >= 10 {
      ReadDecimal(n / 10);
      var s := Decimal(n);
      assert s[..|s| - 1] == Decimal(n / 10);
    }
  }

  /** Reading a rendered number gives it back. */
  lemma ParseDecimal(n: nat)
    ensures ParseInt(Decimal(n)) == Some(n)
  {
    hide ReadDigits, Decimal;
    ReadDecimal(n);
  }

  // ---------------------------------------------------------------- cursors

  datatype Cursor = At(space: nat, core: Option<string>) | Malformed

  predicate IsHexDigest(s: string) {
    |s| == 64 && forall i :: 0 <= i < 64 ==> '0' <= s[i] <= '9' || 'a' <= s[i] <= 'f'
  }

  /** `_parse_export_cursor`. */
  function ParseCursor(cursor: Option<string>): Cursor {
    if cursor.None? then At(0, None)
    else
      var parts := Split(cursor.value, ':');
      if |parts| != 4 || parts[0] != "page" then Malformed
      else
        var space, offset := ParseInt(parts[1]), ParseInt(parts[3]);
        if space.None? || offset.None? || space.value < 0 || offset.value < 0 then Malformed
        else if parts[2] == "start" then
          (if offset.value != 0 then Malformed else At(space.value, None))
        else if !IsHexDigest(parts[2]) then Malformed
        else At(space.value, Some(CoreCursor(parts[2], offset.value)))
  }

  function CoreCursor(digest: string, offset: nat): string {
    "page:" + digest + ":" + Decimal(offset)
  }

  /** The composite cursor for a Core cursor of a space. */
  function Composite(space: nat, core: string): string {
    "page:" + Decimal(space) + ":" + RemovePrefix(core, "page:")
  }

  function SpaceStart(space: nat): string {
    "page:" + Decimal(space) + ":start:0"
  }

  ghost predicate IsCoreCursor(core: string) {
    exists digest: string, offset: nat :: IsHexDigest(digest) && core == CoreCursor(digest, offset)
  }

  lemma NoColon(s: string)
    requires IsHexDigest(s) || (forall i :: 0 <= i < |s| ==> IsDigit(s[i]))
    ensures ':' !in s
  {
  }

  lemma JoinFour(a: string, b: string, c: string, d: string)
    ensures Join([a, b, c, d], ':') == a + ":" + b + ":" + c + ":" + d
  {
    var parts := [a, b, c, d];
    assert parts[1..] == [b, c, d] && parts[1..][1..] == [c, d] && parts[1..][1..][1..] == [d];
    assert Join([c, d], ':') == c + ":" + d;
    assert Join([b, c, d], ':') == b + ":" + Join([c, d], ':');
  }

  lemma SplitFour(space: nat, middle: string, offset: nat)
    requires ':' !in middle
    ensures Split("page" + ":" + Decimal(space) + ":" + middle + ":" + Decimal(offset), ':')
            == ["page", Decimal(space), middle, Decimal(offset)]
  {
    hide Split, Join, Decimal;
    NoColon(Decimal(space));
    NoColon(Decimal(offset));
    assert ':' !in "page";
    SplitJoin(["page", Decimal(space), middle, Decimal(offset)], ':');
    JoinFour("page", Decimal(space), middle, Decimal(offset));
  }

  /** A cursor is accepted exactly in this form, with numbers that are not negative and a start at zero. */
  lemma AcceptedCursor(text: string)
    ensures ParseCursor(Some(text)).At? <==> exists space, middle, offset :: Accepted(text, space, middle, offset)
  {
    hide ParseInt;
    var parts := Split(text, ':');
    assert !IsHexDigest("start");
    JoinSplit(text, ':');
    if ParseCursor(Some(text)).At? {
      assert parts == ["page", parts[1], parts[2], parts[3]];
      JoinFour("page", parts[1], parts[2], parts[3]);
      assert Accepted(text, parts[1], parts[2], parts[3]);
    }
    if space, middle, offset :| Accepted(text, space, middle, offset) {
      JoinFour("page", space, middle, offset);
      assert ':' !in "page";
      SplitJoin(["page", space, middle, offset], ':');
      assert parts == ["page", space, middle, offset];
    }
  }

  ghost predicate Accepted(text: string, space: string, middle: string, offset: string) {
    && text == "page" + ":" + space + ":" + middle + ":" + offset
    && ':' !in space && ':' !in middle && ':' !in offset
    && ParseInt(space).Some? && ParseInt(space).value >= 0
    && ParseInt(offset).Some? && ParseInt(offset).value >= 0
    && ((middle == "start" && ParseInt(offset) == Some(0)) || IsHexDigest(middle))
  }

  lemma PrefixRemoved(rest: string)
    ensures RemovePrefix("page:" + rest, "page:") == rest
  {
    var s := "page:" + rest;
    assert s[..5] == "page:" && s[5..] == rest;
  }

  lemma CompositeText(space: nat, digest: string, offset: nat)
    ensures Composite(space, CoreCursor(digest, offset))
            == "page" + ":" + Decimal(space) + ":" + digest + ":" + Decimal(offset)
  {
    hide Decimal, RemovePrefix;
    var rest := digest + ":" + Decimal(offset);
    PrefixRemoved(rest);
    assert CoreCursor(digest, offset) == "page:" + rest;
    assert "page:" == "page" + ":";
    assert "page:" + Decimal(space) + ":" + rest
        == "page" + ":" + Decimal(space) + ":" + digest + ":" + Decimal(offset);
  }

  /** A composite cursor parses back to the space index and the Core cursor it was built from. */
  lemma CompositeRoundTrip(space: nat, core: string)
    requires IsCoreCursor(core)
    ensures ParseCursor(Some(Composite(space, core))) == At(space, Some(core))
  {
    hide Split, Decimal, ParseInt, Composite, CoreCursor;
    var digest: string, offset: nat :| IsHexDigest(digest) && core == CoreCursor(digest, offset);
    CompositeText(space, digest, offset);
    NoColon(digest);
    SplitFour(space, digest, offset);
    ParseDecimal(space);
    ParseDecimal(offset);
    assert |digest| != |"start"|;
  }

  lemma StartRoundTrip(space: nat)
    ensures ParseCursor(Some(SpaceStart(space))) == At(space, None)
  {
    assert Decimal(0) == "0";
    assert "page:" == "page" + ":" && ":start:0" == ":" + "start" + ":" + Decimal(0);
    assert SpaceStart(space) == "page" + ":" + Decimal(space) + ":" + "start" + ":" + Decimal(0);
    SplitFour(space, "start", 0);
    ParseDecimal(space);
    ParseDecimal(0);
  }

  /** Whatever is parsed, a Core cursor handed on is canonical, so re-composing it is stable. */
  lemma ParsedCoreIsCanonical(cursor: Option<string>)
    requires ParseCursor(cursor).At? && ParseCursor(cursor).core.Some?
    ensures IsCoreCursor(ParseCursor(cursor).core.value)
  {
    var parts := Split(cursor.value, ':');
    assert IsHexDigest(parts[2]) && ParseCursor(cursor).core.value == CoreCursor(parts[2], ParseInt(parts[3]).value);
  }

  // ---------------------------------------------------------------- one export request

  datatype CorePage = CorePage(snapshot: string, itemCount: nat, cursor: string, next: Option<string>)

  type Pager = (string, Option<string>) -> CorePage

  datatype Export = Exported(pages: seq<(string, CorePage)>, next: Option<string>) | Rejected

  /** The paging logic of `export_knowledge` for the matching spaces. */
  function ExportPage(spaces: seq<string>, pager: Pager, cursor: Option<string>): Export {
    match ParseCursor(cursor)
    case Malformed => Rejected
    case At(space, core) =>
      if space > |spaces| then Rejected
      else if space == |spaces| then Exported([], None)
      else
        var page := pager(spaces[space], core);
        var next :=
          if page.next.Some? then Some(Composite(space, page.next.value))
          else if space + 1 < |spaces| then Some(SpaceStart(space + 1))
          else None;
        Exported([(spaces[space], page)], next)
  }

  // ---------------------------------------------------------------- the whole walk

  /** The pager hands out canonical cursors and gets nearer to its end with each one. */
  ghost predicate Progressing(pager: Pager, left: (string, Option<string>) -> nat) {
    forall space: string, core: Option<string> :: pager(space, core).next.Some? ==>
      && IsCoreCursor(pager(space, core).next.value)
      && left(space, pager(space, core).next) < left(space, core)
  }

  /** Every page of one space from a Core cursor on. */
  ghost function CorePages(pager: Pager, left: (string, Option<string>) -> nat, space: string, core: Option<string>)
    : seq<(string, CorePage)>
    requires Progressing(pager, left)
    decreases left(space, core)
  {
    var page := pager(space, core);
    [(space, page)] + if page.next.Some? then CorePages(pager, left, space, page.next) else []
  }

  /** Every page of the spaces from index `k` on, in order. */
  ghost function PagesFrom(pager: Pager, left: (string, Option<string>) -> nat, spaces: seq<string>, k: nat)
    : seq<(string, CorePage)>
    requires Progressing(pager, left) && k <= |spaces|
    decreases |spaces| - k
  {
    if k == |spaces| then []
    else CorePages(pager, left, spaces[k], None) + PagesFrom(pager, left, spaces, k + 1)
  }

  /** What the pager still has for the space a cursor points into. */
  ghost function Left(left: (string, Option<string>) -> nat, spaces: seq<string>, at: Cursor): nat {
    if at.At? && at.space < |spaces| then left(spaces[at.space], at.core) else 0
  }

  /** What a client collects by following `next_cursor` until it is absent. */
  ghost function Follow(
    pager: Pager, left: (string, Option<string>) -> nat, spaces: seq<string>, cursor: Option<string>)
    : seq<(string, CorePage)>
    requires Progressing(pager, left)
    requires ParseCursor(cursor).At? && ParseCursor(cursor).space <= |spaces|
    decreases |spaces| - ParseCursor(cursor).space,
              Left(left, spaces, ParseCursor(cursor))
  {
    var reply := ExportPage(spaces, pager, cursor);
    if reply.next.None? then reply.pages
    else
      NextCursorAdvances(pager, left, spaces, cursor);
      reply.pages + Follow(pager, left, spaces, reply.next)
  }

  /** The next cursor points into the same space with less left, or to the start of the next space. */
  lemma NextCursorAdvances(
    pager: Pager, left: (string, Option<string>) -> nat, spaces: seq<string>, cursor: Option<string>)
    requires Progressing(pager, left)
    requires ParseCursor(cursor).At? && ParseCursor(cursor).space <= |spaces|
    requires ExportPage(spaces, pager, cursor).next.Some?
    ensures var here := ParseCursor(cursor);
            var there := ParseCursor(ExportPage(spaces, pager, cursor).next);
            var page := pager(spaces[here.space], here.core);
            && here.space < |spaces|
            && there == (if page.next.Some? then At(here.space, page.next) else At(here.space + 1, None))
            && there.space < |spaces|
            && (page.next.Some? ==> left(spaces[here.space], there.core) < left(spaces[here.space], here.core))
  {
    hide ParseCursor, Composite, SpaceStart, IsCoreCursor;
    var here := ParseCursor(cursor);
    var page := pager(spaces[here.space], here.core);
    if page.next.Some? {
      CompositeRoundTrip(here.space, page.next.value);
    } else {
      StartRoundTrip(here.space + 1);
    }
  }

  lemma {:induction false} FollowFrom(
    pager: Pager, left: (string, Option<string>) -> nat, spaces: seq<string>, cursor: Option<string>)
    requires Progressing(pager, left)
    requires ParseCursor(cursor).At? && ParseCursor(cursor).space < |spaces|
    ensures Follow(pager, left, spaces, cursor) ==
            CorePages(pager, left, spaces[ParseCursor(cursor).space], ParseCursor(cursor).core)
            + PagesFrom(pager, left, spaces, ParseCursor(cursor).space + 1)
    decreases |spaces| - ParseCursor(cursor).space, left(spaces[ParseCursor(cursor).space], ParseCursor(cursor).core)
  {
    hide ParseCursor, Composite, SpaceStart, IsCoreCursor;
    var here := ParseCursor(cursor);
    var reply := ExportPage(spaces, pager, cursor);
    var page := pager(spaces[here.space], here.core);
    if reply.next.Some? {
      NextCursorAdvances(pager, left, spaces, cursor);
      FollowFrom(pager, left, spaces, reply.next);
      if page.next.Some? {
        assert CorePages(pager, left, spaces[here.space], here.core)
          == [(spaces[here.space], page)] + CorePages(pager, left, spaces[here.space], page.next);
      } else {
        assert CorePages(pager, left, spaces[here.space], here.core) == [(spaces[here.space], page)];
      }
    }
  }

  /**
   Following `next_cursor` from the start ends, and yields every Core page of every matching space
   exactly once, in order.
   */
  lemma ExportIsComplete(pager: Pager, left: (string, Option<string>) -> nat, spaces: seq<string>)
    requires Progressing(pager, left)
    ensures Follow(pager, left, spaces, None) == PagesFrom(pager, left, spaces, 0)
  {
    if |spaces| > 0 {
      FollowFrom(pager, left, spaces, None);
    }
  }
}
