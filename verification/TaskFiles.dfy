/** Bounded text pages of a workspace file, cut so that no character is split. */
module TaskFiles {
  import opened Basics
  import opened Utf8

  const PAGE_BYTES := 128 * 1024

  /** The control characters that make a file unreadable: all but tab, line feed and carriage return. */
  predicate IsRefused(b: Byte) {
    b < 0x20 && b != 0x09 && b != 0x0A && b != 0x0D
  }

  predicate IsPlainText(s: seq<Byte>) {
    IsUtf8(s) && forall i :: 0 <= i < |s| ==> !IsRefused(s[i])
  }

  datatype Page = Page(text: seq<Byte>, nextOffset: Option<nat>)

  /** Drops up to three bytes from the end, and no more than needed. */
  function Trimmed(window: seq<Byte>, trim: nat): seq<Byte>
    requires trim <= 3 <= |window|
    decreases 3 - trim
  {
    var read := window[..|window| - trim];
    if trim == 3 || IsUtf8(read) then read else Trimmed(window, trim + 1)
  }

  function PageAt(data: seq<Byte>, offset: nat): Option<Page> {
    if offset > |data| then None
    else if |data| - offset <= PAGE_BYTES then
      (if IsPlainText(data[offset..]) then Some(Page(data[offset..], None)) else None)
    else
      var read := Trimmed(data[offset..offset + PAGE_BYTES], 0);
      if IsPlainText(read) then Some(Page(read, Some(offset + |read|))) else None
  }

  /** Reads one page. A read of a regular file that does not change returns all bytes asked for. */
  method ReadPage(data: seq<Byte>, offset: nat) returns (page: Option<Page>)
    ensures page == PageAt(data, offset)
  {
    if offset > |data| { return None; }
    var count := if |data| - offset < PAGE_BYTES then |data| - offset else PAGE_BYTES;
    var bytes := data[offset..offset + count];
    var read := bytes;
    if |data| > offset + count {
      var trim := 1;
      while trim <= 3 && !IsUtf8(read)
        invariant 1 <= trim <= 4 && read == bytes[..count - (trim - 1)]
        invariant Trimmed(bytes, 0) == Trimmed(bytes, trim - 1)
      {
        read := bytes[..count - trim];
        trim := trim + 1;
      }
      assert read == Trimmed(bytes, 0);
    } else {
      assert read == data[offset..];
    }
    if !IsUtf8(read) { return None; }
    var control := false;
    for i := 0 to |read|
      invariant control <==> exists j :: 0 <= j < i && IsRefused(read[j])
    {
      control := control || IsRefused(read[i]);
    }
    if control { return None; }
    var next := offset + |read|;
    page := Some(Page(read, if |data| > next then Some(next) else None));
  }

  /** The pages a reader gets by following `nextOffset`; None as soon as one is refused. */
  function PagesFrom(data: seq<Byte>, offset: nat): Option<seq<seq<Byte>>>
    decreases |data| - offset
  {
    match PageAt(data, offset)
    case None => None
    case Some(Page(text, None)) => Some([text])
    case Some(Page(text, Some(next))) =>
      match PagesFrom(data, next)
      case None => None
      case Some(rest) => Some([text] + rest)
  }

  function Joined(pages: seq<seq<Byte>>): seq<Byte> {
    if pages == [] then [] else pages[0] + Joined(pages[1..])
  }

  lemma {:induction false} TrimmedIsFirstFit(window: seq<Byte>, trim: nat, left: nat)
    requires trim <= left <= 3 <= |window| && IsUtf8(window[..|window| - left])
    ensures IsUtf8(Trimmed(window, trim)) && |window| - left <= |Trimmed(window, trim)| <= |window| - trim
    ensures Trimmed(window, trim) <= window
    decreases 3 - trim
  {
    if trim < left && !IsUtf8(window[..|window| - trim]) { TrimmedIsFirstFit(window, trim + 1, left); }
  }

  lemma {:induction false} TrimmedIsPrefix(window: seq<Byte>, trim: nat)
    requires trim <= 3 <= |window|
    ensures |window| - 3 <= |Trimmed(window, trim)| <= |window| && Trimmed(window, trim) <= window
    decreases 3 - trim
  {
    if trim < 3 { TrimmedIsPrefix(window, trim + 1); }
  }

  lemma {:induction false} NextIsFurther(data: seq<Byte>, offset: nat)
    requires PageAt(data, offset).Some? && PageAt(data, offset).value.nextOffset.Some?
    ensures var p := PageAt(data, offset).value;
      offset < p.nextOffset.value <= |data| && p.text == data[offset..p.nextOffset.value]
  {
    TrimmedIsPrefix(data[offset..offset + PAGE_BYTES], 0);
  }

  // ---------------------------------------------------------------------------
  // Pages of a well-formed file, and files all of whose pages are readable
  // ---------------------------------------------------------------------------

  /** From a character boundary of a readable file the next page is readable, and ends on a boundary. */
  lemma {:induction false} PageOfReadable(data: seq<Byte>, offset: nat)
    requires offset <= |data| && IsPlainText(data[offset..])
    ensures PageAt(data, offset).Some?
    ensures var p := PageAt(data, offset).value; p.nextOffset.Some? ==>
      p.nextOffset.value <= |data| && IsPlainText(data[p.nextOffset.value..])
  {
    hide CharLength, IsUtf8, Trimmed;
    var rest := data[offset..];
    if |rest| > PAGE_BYTES {
      assert data[offset..offset + PAGE_BYTES] == rest[..PAGE_BYTES];
      var text := Trimmed(rest[..PAGE_BYTES], 0);
      FirstPage(rest);
      assert data[offset + |text|..] == rest[|text|..];
    }
  }

  lemma {:induction false} FirstPage(rest: seq<Byte>)
    requires IsPlainText(rest) && |rest| > PAGE_BYTES
    ensures var text := Trimmed(rest[..PAGE_BYTES], 0);
      text <= rest && IsPlainText(text) && IsPlainText(rest[|text|..])
  {
    hide CharLength, IsUtf8, Trimmed;
    var window := rest[..PAGE_BYTES];
    var left := CutLeavesAtMostThree(rest, PAGE_BYTES);
    assert rest[..PAGE_BYTES - left] == window[..|window| - left];
    TrimmedIsFirstFit(window, 0, left);
    var text := Trimmed(window, 0);
    assert rest == text + rest[|text|..];
    PrefixEndsOnBoundary(text, rest[|text|..]);
  }

  lemma {:induction false} ReadableHasPages(data: seq<Byte>, offset: nat)
    requires offset <= |data| && IsPlainText(data[offset..])
    ensures PagesFrom(data, offset).Some?
    decreases |data| - offset
  {
    PageOfReadable(data, offset);
    var p := PageAt(data, offset).value;
    if p.nextOffset.Some? {
      NextIsFurther(data, offset);
      ReadableHasPages(data, p.nextOffset.value);
    }
  }

  lemma {:induction false} PagesJoin(data: seq<Byte>, offset: nat)
    requires offset <= |data| && PagesFrom(data, offset).Some?
    ensures Joined(PagesFrom(data, offset).value) == data[offset..] && IsPlainText(data[offset..])
    decreases |data| - offset
  {
    hide CharLength, IsUtf8, Trimmed;
    var p := PageAt(data, offset).value;
    var pages := PagesFrom(data, offset).value;
    if p.nextOffset.Some? {
      NextIsFurther(data, offset);
      var next := p.nextOffset.value;
      PagesJoin(data, next);
      assert pages[1..] == PagesFrom(data, next).value;
      assert data[offset..] == p.text + data[next..];
      ConcatIsUtf8(p.text, data[next..]);
    } else {
      assert Joined(pages[1..]) == [];
    }
  }

  lemma {:induction false} PagesAreBounded(data: seq<Byte>, offset: nat, k: nat)
    requires offset <= |data| && PagesFrom(data, offset).Some? && k < |PagesFrom(data, offset).value|
    ensures var page := PagesFrom(data, offset).value[k];
      && IsPlainText(page) && |page| <= PAGE_BYTES && (offset < |data| ==> page != [])
      && (k < |PagesFrom(data, offset).value| - 1 ==> |page| >= PAGE_BYTES - 3)
    decreases k
  {
    var p := PageAt(data, offset).value;
    if p.nextOffset.Some? {
      NextIsFurther(data, offset);
      TrimmedIsPrefix(data[offset..offset + PAGE_BYTES], 0);
      if k > 0 {
        assert p.nextOffset.value < |data|;
        PagesAreBounded(data, p.nextOffset.value, k - 1);
      }
    }
  }

  /**
   A file can be read to its end by following `nextOffset` from 0 exactly when it is UTF-8
   without refused control characters. The pages are then well-formed, bounded, not empty
   unless the file is, at most three bytes short of full but for the last, and joined they
   are the file.
   */
  lemma {:induction false} PagesAreTheFile(data: seq<Byte>)
    ensures PagesFrom(data, 0).Some? <==> IsPlainText(data)
    ensures PagesFrom(data, 0).Some? ==> Joined(PagesFrom(data, 0).value) == data
    ensures PagesFrom(data, 0).Some? ==> forall k :: 0 <= k < |PagesFrom(data, 0).value| ==>
      var page := PagesFrom(data, 0).value[k];
      && IsPlainText(page) && |page| <= 131_072 && (data != [] ==> page != [])
      && (k < |PagesFrom(data, 0).value| - 1 ==> |page| >= 131_069)
  {
    assert data[0..] == data;
    if IsPlainText(data) { ReadableHasPages(data, 0); }
    if PagesFrom(data, 0).Some? {
      PagesJoin(data, 0);
      forall k | 0 <= k < |PagesFrom(data, 0).value|
        ensures var page := PagesFrom(data, 0).value[k];
          && IsPlainText(page) && |page| <= 131_072 && (data != [] ==> page != [])
          && (k < |PagesFrom(data, 0).value| - 1 ==> |page| >= 131_069)
      {
        PagesAreBounded(data, 0, k);
      }
    }
  }

  /** Of the control characters only tab, line feed and carriage return are let through. */
  lemma {:induction false} RefusedIs(b: Byte)
    ensures IsRefused(b) <==> b as nat < 32 && b as nat !in {9, 10, 13}
  {
  }

  /** What a page may hold: the bytes from its offset on, 128 KiB of them at most. */
  function Window(data: seq<Byte>, offset: nat): seq<Byte>
    requires offset <= |data|
  {
    if |data| - offset <= 131_072 then data[offset..] else data[offset..offset + 131_072]
  }

  predicate CutIsUtf8(window: seq<Byte>, t: nat)
    requires t <= |window|
  {
    IsUtf8(window[..|window| - t])
  }

  /** Up to three bytes may be cut off, and none from the last page. */
  predicate MayCut(data: seq<Byte>, offset: nat, t: nat) {
    && offset <= |data| && t <= 3 && t <= |Window(data, offset)|
    && (t > 0 ==> offset + |Window(data, offset)| < |data|)
  }

  lemma {:induction false} TrimmedIs(window: seq<Byte>, trim: nat, t: nat)
    requires trim <= t <= 3 <= |window|
    requires forall u :: trim <= u < t ==> !CutIsUtf8(window, u)
    requires t < 3 ==> CutIsUtf8(window, t)
    ensures Trimmed(window, trim) == window[..|window| - t]
    decreases t - trim
  {
    if trim < t {
      assert !CutIsUtf8(window, trim);
      TrimmedIs(window, trim + 1, t);
    }
  }

  /** A page is the longest well-formed cut of its window, unless that holds a refused character. */
  lemma {:induction false} PageIsLongestCut(data: seq<Byte>, offset: nat, t: nat)
    requires MayCut(data, offset, t) && CutIsUtf8(Window(data, offset), t)
    requires forall u :: 0 <= u < t ==> !CutIsUtf8(Window(data, offset), u)
    ensures var text := Window(data, offset)[..|Window(data, offset)| - t];
      var next := offset + |text|;
      PageAt(data, offset) ==
        if forall i :: 0 <= i < |text| ==> !IsRefused(text[i])
        then Some(Page(text, if next < |data| then Some(next) else None)) else None
  {
    hide IsUtf8, IsRefused;
    var window := Window(data, offset);
    if |data| - offset > PAGE_BYTES {
      TrimmedIs(window, 0, t);
    } else {
      assert window[..|window|] == data[offset..];
    }
  }

  /** Where no cut is well-formed, and beyond the end, there is no page. */
  lemma {:induction false} NoCutNoPage(data: seq<Byte>, offset: nat)
    requires forall t :: 0 <= t <= 3 && MayCut(data, offset, t) ==> !CutIsUtf8(Window(data, offset), t)
    ensures PageAt(data, offset) == None
  {
    hide IsUtf8;
    if offset <= |data| {
      var window := Window(data, offset);
      assert !CutIsUtf8(window, 0) by { assert MayCut(data, offset, 0); }
      if |data| - offset > PAGE_BYTES {
        assert !CutIsUtf8(window, 3) by { assert MayCut(data, offset, 3); }
        forall u | 0 <= u < 3 ensures !CutIsUtf8(window, u) { assert MayCut(data, offset, u); }
        TrimmedIs(window, 0, 3);
      } else {
        assert window[..|window| - 0] == data[offset..];
      }
    }
  }
}
