/**
 * The window-copying pass that marshals raw JSON, the size hint, and what both mean for a whole text.
 */
module JsonRaw {
  import opened JsonBytes
  import opened JsonText
  import opened JsonScan
  import opened JsonCompact

  // The length of a text without insignificant whitespace.
  method CompactSizeHint(data: Bytes) returns (size: nat)
    ensures size == Hint(data, Outside)
  {
    size := 0;
    var state := Outside;
    assert data[0..] == data;
    for i := 0 to |data|
      invariant size + Hint(data[i..], state) == Hint(data, Outside)
    {
      var b := data[i];
      assert data[i..][0] == b && data[i..][1..] == data[i + 1..];
      if state.Inside? || state.Escaping? {
        state := if state.Escaping? then Inside else if b == BACKSLASH then Escaping
                 else if b == QUOTE then Outside else Inside;
      } else if b == QUOTE {
        state := Inside;
      } else if IsSpace(b) {
        continue;
      }
      size := size + 1;
    }
  }

  predicate SeparatorAt(s: Bytes, i: nat)
  {
    i + 2 < |s| && s[i] == 0xE2 && s[i + 1] == 0x80 && (s[i + 2] == 0xA8 || s[i + 2] == 0xA9)
  }

  // One step of the byte-by-byte specification, by position.
  lemma SqueezeStep(s: Bytes, i: nat, state: State)
    requires i < |s|
    ensures Squeeze(s[i..], state) ==
              if IsMarkup(s[i]) then MarkupEscape(s[i]) + Squeeze(s[i + 1..], state)
              else if SeparatorAt(s, i) then SeparatorEscape(s[i + 2]) + Squeeze(s[i + 3..], state)
              else if state.Outside? && IsSpace(s[i]) then Squeeze(s[i + 1..], Outside)
              else [s[i]] + Squeeze(s[i + 1..], Turn(state, s[i]))
  {
    assert s[i..][1..] == s[i + 1..];
    assert SeparatorAt(s, i) ==> s[i..][3..] == s[i + 3..];
    assert IsSeparator(s[i..]) <==> SeparatorAt(s, i);
  }

  lemma DeepStep(s: Bytes, i: nat, state: State, depth: int)
    requires i < |s|
    ensures TooDeep(s[i..], state, depth) ==
              if IsMarkup(s[i]) then TooDeep(s[i + 1..], state, depth)
              else if SeparatorAt(s, i) then TooDeep(s[i + 3..], state, depth)
              else if state.Outside? && Opens(s[i]) then
                depth + 1 > MAX_DEPTH || TooDeep(s[i + 1..], Outside, depth + 1)
              else if state.Outside? && Closes(s[i]) then TooDeep(s[i + 1..], Outside, depth - 1)
              else TooDeep(s[i + 1..], Turn(state, s[i]), depth)
  {
    assert s[i..][1..] == s[i + 1..];
    assert SeparatorAt(s, i) ==> s[i..][3..] == s[i + 3..];
    assert IsSeparator(s[i..]) <==> SeparatorAt(s, i);
  }

  // What is written, the window not yet written, and what the specification makes of the rest.
  ghost predicate Pending(value: Bytes, out: Bytes, start: nat, index: nat, state: State)
  {
    && start <= index <= |value|
    && out + value[start..index] + Squeeze(value[index..], state) == Squeeze(value, Outside)
  }

  // Writes the window, skips `n` bytes and writes `more` for them.
  lemma WindowEmits(value: Bytes, out: Bytes, start: nat, index: nat, state: State, n: nat, more: Bytes, next: State)
    requires Pending(value, out, start, index, state) && index + n <= |value|
    requires Squeeze(value[index..], state) == more + Squeeze(value[index + n..], next)
    ensures Pending(value, out + value[start..index] + more, index + n, index + n, next)
  {
    var written := out + value[start..index] + more;
    Assoc(out + value[start..index], more, Squeeze(value[index + n..], next));
    assert written + value[index + n..index + n] == written;
  }

  lemma WindowSlides(value: Bytes, out: Bytes, start: nat, index: nat, state: State, next: State)
    requires Pending(value, out, start, index, state) && index < |value|
    requires Squeeze(value[index..], state) == [value[index]] + Squeeze(value[index + 1..], next)
    ensures Pending(value, out, start, index + 1, next)
  {
    assert value[start..index + 1] == value[start..index] + [value[index]];
    Assoc(out, value[start..index], [value[index]]);
    Assoc(out + value[start..index], [value[index]], Squeeze(value[index + 1..], next));
  }

  lemma WindowEnds(value: Bytes, out: Bytes, start: nat, state: State)
    requires Pending(value, out, start, |value|, state)
    ensures out + value[start..] == Squeeze(value, Outside)
  {
    assert value[|value|..] == [];
    assert out + value[start..|value|] + [] == out + value[start..];
  }

  // Where the next byte is markup, a separator, a space to drop, or a byte to keep.
  datatype Kind = Markup | Separator | Dropped | Ordinary

  function KindAt(value: Bytes, index: nat, state: State): Kind
    requires index < |value|
  {
    if IsMarkup(value[index]) then Markup
    else if SeparatorAt(value, index) then Separator
    else if state.Outside? && IsSpace(value[index]) then Dropped
    else Ordinary
  }

  // The depth behind a byte, and whether it is still allowed.
  function DepthAfter(b: Byte, state: State, depth: int): int
  {
    if state.Outside? && Opens(b) then depth + 1 else if state.Outside? && Closes(b) then depth - 1 else depth
  }

  predicate AlwaysDeep(value: Bytes, index: nat, state: State, depth: int)
  {
    index <= |value| && (TooDeep(value[index..], state, depth) <==> TooDeep(value, Outside, 0))
  }

  lemma StepIsDeep(value: Bytes, index: nat, state: State, depth: int)
    requires index < |value| && AlwaysDeep(value, index, state, depth)
    ensures match KindAt(value, index, state)
            case Markup => AlwaysDeep(value, index + 1, state, depth)
            case Separator => AlwaysDeep(value, index + 3, state, depth)
            case Dropped => AlwaysDeep(value, index + 1, state, depth)
            case Ordinary =>
              var next := DepthAfter(value[index], state, depth);
              if next > depth && next > MAX_DEPTH then TooDeep(value, Outside, 0)
              else AlwaysDeep(value, index + 1, Turn(state, value[index]), next)
  {
    DeepStep(value, index, state, depth);
  }

  lemma StepIsPending(value: Bytes, out: Bytes, start: nat, index: nat, state: State)
    requires Pending(value, out, start, index, state) && index < |value|
    ensures match KindAt(value, index, state)
            case Markup =>
              Pending(value, out + value[start..index] + MarkupEscape(value[index]), index + 1, index + 1, state)
            case Separator =>
              Pending(value, out + value[start..index] + SeparatorEscape(value[index + 2]), index + 3, index + 3, state)
            case Dropped => Pending(value, out + value[start..index], index + 1, index + 1, state)
            case Ordinary => Pending(value, out, start, index + 1, Turn(state, value[index]))
  {
    SqueezeStep(value, index, state);
    hide Squeeze, Turn, MarkupEscape, SeparatorEscape;
    match KindAt(value, index, state)
    case Markup => WindowEmits(value, out, start, index, state, 1, MarkupEscape(value[index]), state);
    case Separator => WindowEmits(value, out, start, index, state, 3, SeparatorEscape(value[index + 2]), state);
    case Dropped => {
      assert [] + Squeeze(value[index + 1..], state) == Squeeze(value[index + 1..], state);
      WindowEmits(value, out, start, index, state, 1, [], state);
      assert out + value[start..index] + [] == out + value[start..index];
    }
    case Ordinary => WindowSlides(value, out, start, index, state, Turn(state, value[index]));
  }

  /**
   * Marshals an accepted raw text in one pass: it fails exactly when brackets nest too deep, and
   * otherwise drops whitespace and escapes exactly as specified byte by byte.
   */
  method MarshaledRawJSON(value: Bytes, accepted: bool) returns (result: Bytes, ok: bool)
    ensures ok <==> accepted && !TooDeep(value, Outside, 0)
    ensures ok ==> result == Squeeze(value, Outside)
  {
    if !accepted {
      return [], false;
    }
    var out: Bytes := [];
    var start, depth, index := 0, 0, 0;
    var state := Outside;
    assert value[0..] == value;
    assert Pending(value, out, 0, 0, Outside) by {
      assert out + value[0..0] + Squeeze(value, Outside) == Squeeze(value, Outside);
    }
    while index < |value|
      invariant Pending(value, out, start, index, state)
      invariant AlwaysDeep(value, index, state, depth)
      decreases |value| - index
    {
      var b := value[index];
      StepIsPending(value, out, start, index, state);
      StepIsDeep(value, index, state, depth);
      if IsMarkup(b) {
        out := out + value[start..index] + MarkupEscape(b);
        start, index := index + 1, index + 1;
        continue;
      }
      if SeparatorAt(value, index) {
        out := out + value[start..index] + SeparatorEscape(value[index + 2]);
        start, index := index + 3, index + 3;
        continue;
      }
      if state.Outside? && IsSpace(b) {
        out := out + value[start..index];
        start, index := index + 1, index + 1;
        continue;
      }
      var next := DepthAfter(b, state, depth);
      if next > depth && next > MAX_DEPTH {
        return [], false;
      }
      state, depth, index := Turn(state, b), next, index + 1;
    }
    WindowEnds(value, out, start, state);
    assert !TooDeep(value, Outside, 0) by { assert value[index..] == []; }
    return out + value[start..], true;
  }

  // ---------------------------------------------------------------------------------------------
  // Whole texts.

  lemma DocumentIsWalked(d: Document)
    requires WellFormedDocument(d)
    ensures Walked(PrintDocument(d), [], Print(Compact(d.value)), 0, Nesting(d.value))
  {
    SpaceIsDropped(d.lead, PrintTo(d.value, d.trail), 0);
    ValueIsWalked(d.value, d.trail, 0);
    assert d.trail + [] == d.trail;
    SpaceIsDropped(d.trail, [], 0);
  }

  /**
   * On every well-formed text the result is the print of the compacted tree, its length is the size
   * hint plus what the escapes add, and it is refused exactly when containers nest deeper than 512.
   */
  lemma RawTextIsCompacted(d: Document)
    requires WellFormedDocument(d)
    ensures Squeeze(PrintDocument(d), Outside) == Print(Compact(d.value))
    ensures |Squeeze(PrintDocument(d), Outside)| == Hint(PrintDocument(d), Outside) + Growth(PrintDocument(d))
    ensures TooDeep(PrintDocument(d), Outside, 0) <==> Nesting(d.value) > MAX_DEPTH
  {
    DocumentIsWalked(d);
  }

  // ---------------------------------------------------------------------------------------------
  // Compacting again.

  predicate Clean(content: Bytes)
  {
    content == [] || (!IsMarkup(content[0]) && !IsSeparator(content) && Clean(content[1..]))
  }

  lemma CleanFirst(b: Byte, tail: Bytes)
    requires Copied(b) && Clean(tail)
    ensures Clean([b] + tail)
  {
    First(b, tail);
  }

  lemma CleanSix(a: Byte, b: Byte, c: Byte, d: Byte, e: Byte, f: Byte, tail: Bytes)
    requires Copied(a) && Copied(b) && Copied(c) && Copied(d) && Copied(e) && Copied(f) && Clean(tail)
    ensures Clean([a, b, c, d, e, f] + tail)
  {
    CleanFirst(f, tail);
    CleanFirst(e, [f] + tail);
    CleanFirst(d, [e] + ([f] + tail));
    CleanFirst(c, [d] + ([e] + ([f] + tail)));
    CleanFirst(b, [c] + ([d] + ([e] + ([f] + tail))));
    CleanFirst(a, [b] + ([c] + ([d] + ([e] + ([f] + tail)))));
    assert [a, b, c, d, e, f] + tail == [a] + ([b] + ([c] + ([d] + ([e] + ([f] + tail)))));
  }

  lemma {:induction false} EscapedIsClean(content: Bytes)
    ensures Clean(Escaped(content))
  {
    if content != [] {
      var c := content[0];
      if IsMarkup(c) {
        EscapedIsClean(content[1..]);
        CleanSix(BACKSLASH, LETTER_U, 0x30, 0x30, LowerHex(c / 16), LowerHex(c % 16), Escaped(content[1..]));
      } else if IsSeparator(content) {
        EscapedIsClean(content[3..]);
        CleanSix(BACKSLASH, LETTER_U, 0x32, 0x30, 0x32, LowerHex(content[2] % 16), Escaped(content[3..]));
      } else {
        EscapedIsClean(content[1..]);
        First(c, Escaped(content[1..]));
        SeparatorNotMade(content);
      }
    }
  }

  // Escaping what follows never completes a separator.
  lemma SeparatorNotMade(content: Bytes)
    requires content != [] && !IsMarkup(content[0]) && !IsSeparator(content)
    ensures !IsSeparator([content[0]] + Escaped(content[1..]))
  {
    var rest := content[1..];
    if rest != [] && !IsMarkup(rest[0]) && !IsSeparator(rest) {
      assert Escaped(rest) == [rest[0]] + Escaped(rest[1..]);
      var last := rest[1..];
      if last != [] && !IsMarkup(last[0]) && !IsSeparator(last) {
        assert Escaped(last) == [last[0]] + Escaped(last[1..]);
      }
    }
  }

  lemma {:induction false} CleanIsKept(content: Bytes)
    requires Clean(content)
    ensures Escaped(content) == content
  {
    if content != [] {
      CleanIsKept(content[1..]);
      assert content == [content[0]] + content[1..];
    }
  }

  lemma {:induction false} CompactTwice(v: Value)
    ensures Compact(Compact(v)) == Compact(v)
    decreases v, 0
  {
    match v
    case Lit(_) =>
    case Str(content) => {
      EscapedIsClean(content);
      CleanIsKept(Escaped(content));
    }
    case Arr(_, items) => CompactItemsTwice(items);
    case Obj(_, members) => CompactMembersTwice(members);
  }

  lemma {:induction false} CompactItemsTwice(items: Items)
    ensures CompactItems(CompactItems(items)) == CompactItems(items)
    decreases items, 0
  {
    if items.Item? {
      CompactTwice(items.value);
      CompactItemsTwice(items.rest);
    }
  }

  lemma {:induction false} CompactMembersTwice(members: Members)
    ensures CompactMembers(CompactMembers(members)) == CompactMembers(members)
    decreases members, 0
  {
    if members.Member? {
      EscapedIsClean(members.key);
      CleanIsKept(Escaped(members.key));
      CompactTwice(members.value);
      CompactMembersTwice(members.rest);
    }
  }

  lemma EscapeStartsLiteral(escape: Bytes, tail: Bytes)
    requires |escape| == 6 && IsUnicodeEscape(escape) && Literal(tail)
    ensures Literal(escape + tail)
  {
    var s := escape + tail;
    assert forall i :: 0 <= i < 6 ==> s[i] == escape[i];
    assert s[6..] == tail;
  }

  lemma ByteStartsLiteral(b: Byte, tail: Bytes)
    requires b >= 0x20 && b != QUOTE && b != BACKSLASH && Literal(tail)
    ensures Literal([b] + tail)
  {
    First(b, tail);
  }

  lemma ShortStartsLiteral(b: Byte, tail: Bytes)
    requires IsShortEscape(b) && Literal(tail)
    ensures Literal([BACKSLASH] + ([b] + tail))
  {
    var s := [BACKSLASH] + ([b] + tail);
    assert s[0] == BACKSLASH && s[1] == b && s[2..] == tail;
  }

  lemma {:induction false} EscapedIsLiteral(content: Bytes)
    requires Literal(content)
    ensures Literal(Escaped(content))
  {
    if content != [] {
      var n := ElementLength(content);
      if n > 1 {
        EscapedIsLiteral(content[n..]);
        EscapeIsKept(content);
        var tail := Escaped(content[n..]);
        if n == 6 {
          assert content[..6] == [BACKSLASH] + ([content[1]] + content[2..6]);
          EscapeJoins(content[1], content[2..6], [], tail);
          assert content[2..6] + [] == content[2..6] && [] + tail == tail;
          EscapeStartsLiteral(content[..6], tail);
        } else {
          assert content[2..2] + tail == tail;
          ShortStartsLiteral(content[1], tail);
        }
      } else if IsMarkup(content[0]) {
        EscapedIsLiteral(content[1..]);
        EscapeStartsLiteral(MarkupEscape(content[0]), Escaped(content[1..]));
      } else if IsSeparator(content) {
        SeparatorIsLiteral(content);
        EscapedIsLiteral(content[3..]);
        EscapeStartsLiteral(SeparatorEscape(content[2]), Escaped(content[3..]));
      } else {
        EscapedIsLiteral(content[1..]);
        ByteStartsLiteral(content[0], Escaped(content[1..]));
      }
    }
  }

  lemma {:induction false} CompactIsWellFormed(v: Value)
    requires WellFormed(v)
    ensures WellFormed(Compact(v))
    decreases v, 0
  {
    match v
    case Lit(_) =>
    case Str(content) => EscapedIsLiteral(content);
    case Arr(_, items) => CompactItemsAreWellFormed(items);
    case Obj(_, members) => CompactMembersAreWellFormed(members);
  }

  lemma {:induction false} CompactItemsAreWellFormed(items: Items)
    requires WellFormedItems(items)
    ensures WellFormedItems(CompactItems(items))
    decreases items, 0
  {
    if items.Item? {
      CompactIsWellFormed(items.value);
      CompactItemsAreWellFormed(items.rest);
    }
  }

  lemma {:induction false} CompactMembersAreWellFormed(members: Members)
    requires WellFormedMembers(members)
    ensures WellFormedMembers(CompactMembers(members))
    decreases members, 0
  {
    if members.Member? {
      EscapedIsLiteral(members.key);
      CompactIsWellFormed(members.value);
      CompactMembersAreWellFormed(members.rest);
    }
  }

  // Marshalling what was marshalled changes nothing more.
  lemma RawTextIsStable(d: Document)
    requires WellFormedDocument(d)
    ensures var once := Squeeze(PrintDocument(d), Outside);
            Squeeze(once, Outside) == once && WellFormedDocument(Document([], Compact(d.value), [])) &&
            once == PrintDocument(Document([], Compact(d.value), []))
  {
    var again := Document([], Compact(d.value), []);
    RawTextIsCompacted(d);
    CompactIsWellFormed(d.value);
    assert PrintDocument(again) == Print(Compact(d.value)) by {
      assert [] + Print(Compact(d.value)) == Print(Compact(d.value));
    }
    RawTextIsCompacted(again);
    CompactTwice(d.value);
  }
}
