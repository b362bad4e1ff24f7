/** Reading a text artifact piece by piece (storage/artifact_store.py): offsets index characters, but the
next offset and the size count UTF-8 bytes. */
module ArtifactPaging {
  import opened Wrappers

  datatype ArtifactRead =
    ArtifactRead(content: string, offset: nat, limit: nat, nextOffset: Option<nat>, size: nat, eof: bool)

  /** The UTF-8 length of one character (section 3 of RFC 3629). */
  function Width(c: char): nat {
    if c as int < 0x80 then 1 else if c as int < 0x800 then 2 else if c as int < 0x10000 then 3 else 4
  }

  function Utf8Length(s: string): nat {
    if s == [] then 0 else Width(s[0]) + Utf8Length(s[1..])
  }

  /** The bits a form of `n` bytes has room for: 7 in a single byte, else 7 - n in the leading byte and 6 in
      each of the others. */
  function PayloadBits(n: nat): nat
    requires 1 <= n <= 4
  {
    if n == 1 then 7 else 7 - n + 6 * (n - 1)
  }

  function PowerOfTwo(n: nat): nat {
    if n == 0 then 1 else 2 * PowerOfTwo(n - 1)
  }

  /** A character is as wide as the shortest form that has room for it. */
  lemma WidthIsShortest(c: char)
    ensures 1 <= Width(c) <= 4
    ensures forall n :: 1 <= n <= 4 ==> (Width(c) <= n <==> (c as int) < PowerOfTwo(PayloadBits(n)))
  {
    assert PowerOfTwo(7) == 0x80;
    assert PowerOfTwo(11) == 0x800;
    assert PowerOfTwo(16) == 0x10000;
    assert PowerOfTwo(21) == 0x200000;
  }

  predicate IsAscii(s: string) {
    forall i :: 0 <= i < |s| ==> s[i] as int < 0x80
  }

  function Min(a: nat, b: nat): nat {
    if a <= b then a else b
  }

  function Slice<T>(s: seq<T>, offset: nat, limit: nat): seq<T> {
    s[Min(offset, |s|)..Min(offset + limit, |s|)]
  }

  function AtLeast(least: nat, n: int): nat {
    if n < least then least else n
  }

  function Read(text: string, offset: int, limit: int): ArtifactRead {
    var safeOffset, safeLimit := AtLeast(0, offset), AtLeast(0, limit);
    ReadOf(Slice(text, safeOffset, safeLimit), safeOffset, safeLimit, Utf8Length(text))
  }

  /** Reading bytes, which are decoded piece by piece. */
  function ReadBytes(bytes: seq<int>, decode: seq<int> -> string, size: nat, offset: int, limit: int): ArtifactRead {
    var safeOffset, safeLimit := AtLeast(0, offset), AtLeast(0, limit);
    ReadOf(if safeLimit == 0 then "" else decode(Slice(bytes, safeOffset, safeLimit)), safeOffset, safeLimit, size)
  }

  function ReadOf(content: string, safeOffset: nat, safeLimit: nat, size: nat): ArtifactRead {
    var next := safeOffset + Utf8Length(content);
    var eof := next >= size || safeLimit == 0;
    ArtifactRead(content, safeOffset, safeLimit, if eof then None else Some(next), size, eof)
  }

  lemma SliceIs<T>(s: seq<T>, offset: nat, limit: nat)
    ensures offset + limit <= |s| ==> Slice(s, offset, limit) == s[offset..offset + limit]
    ensures offset <= |s| < offset + limit ==> Slice(s, offset, limit) == s[offset..]
    ensures offset > |s| ==> Slice(s, offset, limit) == []
  {
    if offset <= |s| < offset + limit {
      assert s[offset..|s|] == s[offset..];
    }
  }

  /** What a read of bytes shows: negative arguments count as 0, nothing is shown and the end is reached for the
      limit 0, and otherwise the bytes from the offset on are shown decoded, as many as the limit allows. */
  lemma ReadBytesShows(bytes: seq<int>, decode: seq<int> -> string, size: nat, offset: int, limit: int)
    ensures var r := ReadBytes(bytes, decode, size, offset, limit);
            var next := r.offset + Utf8Length(r.content);
            && r.offset == (if offset > 0 then offset else 0) && r.limit == (if limit > 0 then limit else 0) && r.size == size
            && (limit <= 0 ==> r.content == "")
            && (limit > 0 && r.offset + limit <= |bytes| ==> r.content == decode(bytes[r.offset..r.offset + limit]))
            && (limit > 0 && r.offset <= |bytes| < r.offset + limit ==> r.content == decode(bytes[r.offset..]))
            && (limit > 0 && r.offset > |bytes| ==> r.content == decode([]))
            && (r.eof <==> limit <= 0 || next >= size)
            && r.nextOffset == if r.eof then None else Some(next)
  {
    hide Slice, Utf8Length;
    SliceIs(bytes, AtLeast(0, offset), AtLeast(0, limit));
  }

  /** The same for a text, whose offset and limit count characters. */
  lemma ReadShows(text: string, offset: int, limit: int)
    ensures var r := Read(text, offset, limit);
            var next := r.offset + Utf8Length(r.content);
            && r.offset == (if offset > 0 then offset else 0) && r.limit == (if limit > 0 then limit else 0)
            && r.size == Utf8Length(text)
            && (r.offset + r.limit <= |text| ==> r.content == text[r.offset..r.offset + r.limit])
            && (r.offset <= |text| < r.offset + r.limit ==> r.content == text[r.offset..])
            && (r.offset > |text| ==> r.content == "")
            && (r.eof <==> limit <= 0 || next >= Utf8Length(text))
            && r.nextOffset == if r.eof then None else Some(next)
  {
    hide Slice, Utf8Length;
    SliceIs(text, AtLeast(0, offset), AtLeast(0, limit));
  }

  function ReadPage(text: string, page: int, pageSize: int): ArtifactRead {
    var safePage, safeSize := AtLeast(1, page), AtLeast(0, pageSize);
    Read(text, (safePage - 1) * safeSize, safeSize)
  }

  lemma {:induction false} Utf8Concat(a: string, b: string)
    ensures Utf8Length(a + b) == Utf8Length(a) + Utf8Length(b)
  {
    if a == [] {
      assert a + b == b;
    } else {
      assert (a + b)[1..] == a[1..] + b;
      Utf8Concat(a[1..], b);
    }
  }

  /** One byte a character at least, and exactly that for ASCII text only. */
  lemma {:induction false} Utf8IsLonger(s: string)
    ensures Utf8Length(s) >= |s|
    ensures Utf8Length(s) == |s| <==> IsAscii(s)
  {
    if s != [] {
      Utf8IsLonger(s[1..]);
      assert IsAscii(s) <==> s[0] as int < 0x80 && IsAscii(s[1..]) by {
        assert forall i :: 1 <= i < |s| ==> s[i] == s[1..][i - 1];
        if s[0] as int < 0x80 && IsAscii(s[1..]) {
          forall i | 0 <= i < |s|
            ensures s[i] as int < 0x80
          {
            assert i > 0 ==> s[i] == s[1..][i - 1];
          }
        }
      }
    }
  }

  // Following the next offset

  /** What a reader collects who follows the next offset until the end, unless that takes more than
      `times` reads. */
  function Follow(text: string, limit: nat, offset: nat, times: nat): Option<string>
    decreases times
  {
    if times == 0 then None
    else
      var r := Read(text, offset, limit);
      if r.nextOffset.None? then Some(r.content)
      else match Follow(text, limit, r.nextOffset.value, times - 1)
        case None => None
        case Some(rest) => Some(r.content + rest)
  }

  /** Every piece of `limit` characters from `offset` on is ASCII, except perhaps the last one. */
  predicate AllButLastAscii(text: string, limit: nat, offset: nat)
    requires limit > 0
    decreases if offset < |text| then |text| - offset else 0
  {
    offset + limit < |text| ==>
      IsAscii(text[offset..offset + limit]) && AllButLastAscii(text, limit, offset + limit)
  }

  // Following the next offset through bytes

  function FollowBytes(bytes: seq<int>, decode: seq<int> -> string, limit: nat, offset: nat, times: nat): Option<string>
    decreases times
  {
    if times == 0 then None
    else
      var r := ReadBytes(bytes, decode, |bytes|, offset, limit);
      if r.nextOffset.None? then Some(r.content)
      else match FollowBytes(bytes, decode, limit, r.nextOffset.value, times - 1)
        case None => None
        case Some(rest) => Some(r.content + rest)
  }

  /** Every piece before the last decodes to a text of its own length in bytes, and the last to one at least as
      long: no character is cut in two, since what replaces a broken one is longer. */
  predicate PiecesFit(bytes: seq<int>, decode: seq<int> -> string, limit: nat, offset: nat)
    requires limit > 0 && offset <= |bytes|
    decreases |bytes| - offset
  {
    if offset + limit >= |bytes| then Utf8Length(decode(bytes[offset..])) >= |bytes| - offset
    else Utf8Length(decode(bytes[offset..offset + limit])) == limit && PiecesFit(bytes, decode, limit, offset + limit)
  }

  /** The pieces decoded one by one. */
  function Decoded(bytes: seq<int>, decode: seq<int> -> string, limit: nat, offset: nat): string
    requires limit > 0 && offset <= |bytes|
    decreases |bytes| - offset
  {
    if offset + limit >= |bytes| then decode(bytes[offset..])
    else decode(bytes[offset..offset + limit]) + Decoded(bytes, decode, limit, offset + limit)
  }

  /** Following the next offset through bytes collects every piece once when the pieces fit. */
  lemma {:induction false} FollowingBytesCollects(bytes: seq<int>, decode: seq<int> -> string, limit: nat, offset: nat, times: nat)
    requires limit > 0 && offset <= |bytes| && times > |bytes| - offset && PiecesFit(bytes, decode, limit, offset)
    ensures FollowBytes(bytes, decode, limit, offset, times) == Some(Decoded(bytes, decode, limit, offset))
    decreases times
  {
    hide ReadBytes, Utf8Length;
    ReadBytesShows(bytes, decode, |bytes|, offset, limit);
    if offset + limit < |bytes| {
      FollowingBytesCollects(bytes, decode, limit, offset + limit, times - 1);
    } else if offset + limit == |bytes| {
      assert bytes[offset..offset + limit] == bytes[offset..];
    }
  }

  ghost predicate DecodesOneByOne(decode: seq<int> -> string) {
    && (forall a :: Utf8Length(decode(a)) == |a|)
    && (forall a, b :: decode(a + b) == decode(a) + decode(b))
  }

  /** Bytes that stand for one ASCII character each always fit, and all of them are collected. */
  lemma {:induction false} AsciiBytesFit(bytes: seq<int>, decode: seq<int> -> string, limit: nat, offset: nat)
    requires limit > 0 && offset <= |bytes| && DecodesOneByOne(decode)
    ensures PiecesFit(bytes, decode, limit, offset)
    ensures Decoded(bytes, decode, limit, offset) == decode(bytes[offset..])
    decreases |bytes| - offset
  {
    hide DecodesOneByOne, Utf8Length;
    OneByOne(decode, bytes[offset..], []);
    if offset + limit < |bytes| {
      var piece, rest := bytes[offset..offset + limit], bytes[offset + limit..];
      AsciiBytesFit(bytes, decode, limit, offset + limit);
      assert bytes[offset..] == piece + rest;
      OneByOne(decode, piece, rest);
    }
  }

  lemma OneByOne(decode: seq<int> -> string, a: seq<int>, b: seq<int>)
    requires DecodesOneByOne(decode)
    ensures Utf8Length(decode(a)) == |a| && decode(a + b) == decode(a) + decode(b)
  {
  }

  function PageCount(length: nat, limit: nat): nat
    requires limit > 0
    decreases length
  {
    if length <= limit then 1 else 1 + PageCount(length - limit, limit)
  }

  lemma {:induction false} PageCountIsCeiling(length: nat, limit: nat)
    requires limit > 0 && length > 0
    ensures (PageCount(length, limit) - 1) * limit < length <= PageCount(length, limit) * limit
    decreases length
  {
    if length > limit {
      PageCountIsCeiling(length - limit, limit);
      var k := PageCount(length - limit, limit);
      assert (k + 1) * limit == k * limit + limit;
      assert (k - 1) * limit + limit == k * limit;
    }
  }

  /** One read at a position that whole ASCII pieces precede. */
  lemma ReadHere(text: string, limit: nat, offset: nat)
    requires limit > 0 && offset <= |text| && IsAscii(text[..offset])
    ensures var r := Read(text, offset, limit);
            if offset + limit >= |text| then r.content == text[offset..] && r.nextOffset.None?
            else r.content == text[offset..offset + limit] && r.nextOffset.Some?
                 && r.nextOffset.value >= offset + limit
                 && (r.nextOffset.value == offset + limit <==> IsAscii(r.content))
  {
    var content := Slice(text, offset, limit);
    var end := Min(offset + limit, |text|);
    assert text == text[..offset] + content + text[end..];
    Utf8Concat(text[..offset] + content, text[end..]);
    Utf8Concat(text[..offset], content);
    Utf8IsLonger(text[..offset]);
    Utf8IsLonger(content);
    Utf8IsLonger(text[end..]);
  }

  /** Pieces never overlap: nothing read from an offset on is longer than what is left there. */
  lemma {:induction false} FollowedFits(text: string, limit: nat, offset: nat, times: nat)
    ensures match Follow(text, limit, offset, times)
            case None => true
            case Some(s) => |s| <= |text| - Min(offset, |text|)
    decreases times
  {
    if times > 0 {
      var r := Read(text, offset, limit);
      if r.nextOffset.Some? {
        Utf8IsLonger(r.content);
        FollowedFits(text, limit, r.nextOffset.value, times - 1);
      }
    }
  }

  lemma AsciiGrows(text: string, offset: nat, limit: nat)
    requires offset + limit <= |text| && IsAscii(text[..offset]) && IsAscii(text[offset..offset + limit])
    ensures IsAscii(text[..offset + limit])
  {
  }

  /** The reader gets all that is left exactly when all pieces but the last are ASCII, and then in as many
      reads as there are pieces. */
  lemma {:induction false} FollowedFrom(text: string, limit: nat, offset: nat, times: nat)
    requires limit > 0 && offset <= |text| && IsAscii(text[..offset])
    ensures Follow(text, limit, offset, times) == Some(text[offset..]) <==>
            AllButLastAscii(text, limit, offset) && times >= PageCount(|text| - offset, limit)
    ensures AllButLastAscii(text, limit, offset) && times < PageCount(|text| - offset, limit) ==>
            Follow(text, limit, offset, times) == None
    decreases |text| - offset
  {
    hide Read;
    ReadHere(text, limit, offset);
    if times > 0 && offset + limit < |text| {
      var r := Read(text, offset, limit);
      var next := r.nextOffset.value;
      var rest := text[offset + limit..];
      assert text[offset..] == r.content + rest;
      if next == offset + limit {
        AsciiGrows(text, offset, limit);
        FollowedFrom(text, limit, offset + limit, times - 1);
        var f := Follow(text, limit, next, times - 1);
        if f.Some? && r.content + f.value == r.content + rest {
          assert (r.content + f.value)[|r.content|..] == f.value && (r.content + rest)[|r.content|..] == rest;
        }
      } else {
        FollowedFits(text, limit, next, times - 1);
        var f := Follow(text, limit, next, times - 1);
        assert f.Some? ==> |r.content + f.value| < |text[offset..]|;
      }
    }
  }

  /** A reader who starts at 0 and follows the next offset collects the whole text exactly when every piece
      but the last is ASCII. For such texts the number of reads is the number of pieces. */
  lemma FollowingCollectsTheText(text: string, limit: nat)
    requires limit > 0
    ensures (exists times: nat :: Follow(text, limit, 0, times) == Some(text)) <==> AllButLastAscii(text, limit, 0)
    ensures AllButLastAscii(text, limit, 0) ==>
              forall times: nat :: Follow(text, limit, 0, times) ==
                if times >= PageCount(|text|, limit) then Some(text) else None
  {
    assert text[0..] == text;
    forall times: nat
      ensures Follow(text, limit, 0, times) == Some(text) <==> AllButLastAscii(text, limit, 0) && times >= PageCount(|text|, limit)
      ensures AllButLastAscii(text, limit, 0) && times < PageCount(|text|, limit) ==> Follow(text, limit, 0, times) == None
    {
      FollowedFrom(text, limit, 0, times);
    }
    assert AllButLastAscii(text, limit, 0) ==> Follow(text, limit, 0, PageCount(|text|, limit)) == Some(text);
  }

  lemma {:induction false} AsciiHasAsciiPieces(text: string, limit: nat, offset: nat)
    requires limit > 0 && IsAscii(text)
    ensures AllButLastAscii(text, limit, offset)
    decreases if offset < |text| then |text| - offset else 0
  {
    if offset + limit < |text| {
      AsciiHasAsciiPieces(text, limit, offset + limit);
    }
  }

  /** An offset beyond the characters but not beyond the bytes is its own next offset: the reader never
      finishes. */
  lemma {:induction false} StuckBehindTheEnd(text: string, limit: nat, offset: nat, times: nat)
    requires limit > 0 && |text| <= offset < Utf8Length(text)
    ensures Follow(text, limit, offset, times) == None
  {
    if times > 0 {
      assert Slice(text, offset, limit) == [];
      StuckBehindTheEnd(text, limit, offset, times - 1);
    }
  }

  lemma LastPieceIsMarked(text: string, offset: nat, limit: nat)
    requires limit > 0 && offset <= |text|
    ensures Read(text, offset, limit).eof <==> offset + limit >= |text| && IsAscii(text[..offset])
  {
    var content := Slice(text, offset, limit);
    var end := Min(offset + limit, |text|);
    assert text == text[..offset] + content + text[end..];
    Utf8Concat(text[..offset] + content, text[end..]);
    Utf8Concat(text[..offset], content);
    Utf8IsLonger(text[..offset]);
    Utf8IsLonger(text[end..]);
    assert end == |text| ==> text[end..] == [];
  }

  lemma AsciiPrefix(text: string, m: nat, n: nat)
    requires m <= n <= |text| && IsAscii(text[..n])
    ensures IsAscii(text[..m])
  {
    assert forall i :: 0 <= i < m ==> text[..m][i] == text[..n][i];
  }

  /** Once a character of more than one byte lies behind, the offset has run ahead of the characters and the
      reader never finishes. */
  lemma {:induction false} NeverFinishes(text: string, limit: nat, offset: nat, times: nat)
    requires limit > 0 && offset < Utf8Length(text) && !IsAscii(text[..Min(offset, |text|)])
    ensures Follow(text, limit, offset, times) == None
    decreases times
  {
    hide IsAscii;
    if offset >= |text| {
      StuckBehindTheEnd(text, limit, offset, times);
    } else if times > 0 {
      LastPieceIsMarked(text, offset, limit);
      var next := Read(text, offset, limit).nextOffset.value;
      if IsAscii(text[..Min(next, |text|)]) {
        AsciiPrefix(text, offset, Min(next, |text|));
      }
      NeverFinishes(text, limit, next, times - 1);
    }
  }

  lemma {:induction false} FinishingNeedsAscii(text: string, limit: nat, offset: nat, times: nat)
    requires limit > 0 && offset <= |text| && IsAscii(text[..offset])
    requires Follow(text, limit, offset, times).Some?
    ensures AllButLastAscii(text, limit, offset)
    decreases times
  {
    hide Read, IsAscii;
    ReadHere(text, limit, offset);
    if offset + limit < |text| {
      var r := Read(text, offset, limit);
      var next := r.nextOffset.value;
      if IsAscii(r.content) {
        AsciiGrows(text, offset, limit);
        FinishingNeedsAscii(text, limit, next, times - 1);
      } else {
        NextIsInside(text, limit, offset);
        if IsAscii(text[..Min(next, |text|)]) {
          PieceOfPrefix(text, offset, limit, Min(next, |text|));
        }
        NeverFinishes(text, limit, next, times - 1);
      }
    }
  }

  lemma NextIsInside(text: string, limit: nat, offset: nat)
    requires Read(text, offset, limit).nextOffset.Some?
    ensures Read(text, offset, limit).nextOffset.value < Utf8Length(text)
  {
  }

  lemma PieceOfPrefix(text: string, offset: nat, limit: nat, n: nat)
    requires offset + limit <= n <= |text| && IsAscii(text[..n])
    ensures IsAscii(text[offset..offset + limit])
  {
    var piece, prefix := text[offset..offset + limit], text[..n];
    forall i | 0 <= i < |piece|
      ensures piece[i] as int < 0x80
    {
      assert piece[i] == prefix[offset + i];
    }
  }

  /** Following the next offset comes to an end exactly when every piece but the last is ASCII: it collects the
      whole text or it never ends. */
  lemma FollowingEndsExactly(text: string, limit: nat)
    requires limit > 0
    ensures (exists times: nat :: Follow(text, limit, 0, times).Some?) <==> AllButLastAscii(text, limit, 0)
    ensures forall times: nat :: Follow(text, limit, 0, times).Some? ==> Follow(text, limit, 0, times) == Some(text)
  {
    FollowingCollectsTheText(text, limit);
    forall times: nat | Follow(text, limit, 0, times).Some?
      ensures AllButLastAscii(text, limit, 0) && Follow(text, limit, 0, times) == Some(text)
    {
      FinishingNeedsAscii(text, limit, 0, times);
    }
    if AllButLastAscii(text, limit, 0) {
      assert Follow(text, limit, 0, PageCount(|text|, limit)).Some?;
    }
  }

  /** Two characters, the first of two bytes, read one at a time. */
  lemma FollowingCanRunForever(times: nat)
    ensures Follow("\U{e9}a", 1, 0, times) == None
  {
    var text := "\U{e9}a";
    assert text[0..1] == "\U{e9}" && text[1..] == "a";
    assert Utf8Length("\U{e9}") == 2 && Utf8Length("a") == 1 && Utf8Length(text) == 3;
    if times > 0 {
      assert Read(text, 0, 1).nextOffset == Some(2);
      StuckBehindTheEnd(text, 1, 2, times - 1);
    }
  }

  // Numbered pages

  function FirstPages(text: string, pageSize: nat, pages: nat): string {
    if pages == 0 then "" else FirstPages(text, pageSize, pages - 1) + ReadPage(text, pages, pageSize).content
  }

  lemma NextPage(text: string, start: nat, pageSize: nat)
    ensures text[..Min(start, |text|)] + Read(text, start, pageSize).content == text[..Min(start + pageSize, |text|)]
  {
  }

  lemma PageStart(text: string, page: nat, pageSize: nat)
    requires page > 0
    ensures (page - 1) * pageSize >= 0 && (page - 1) * pageSize + pageSize == page * pageSize
    ensures ReadPage(text, page, pageSize) == Read(text, (page - 1) * pageSize, pageSize)
  {
    hide Read;
  }

  lemma NoPages(pageSize: nat, length: nat)
    ensures Min(0 * pageSize, length) == 0
  {
  }

  /** Consecutive pages are consecutive pieces of the text, whatever its characters. */
  lemma {:induction false} PagesAreTheText(text: string, pageSize: nat, pages: nat)
    ensures FirstPages(text, pageSize, pages) == text[..Min(pages * pageSize, |text|)]
  {
    hide Read, ReadPage, Min;
    if pages == 0 {
      assert Min(pages * pageSize, |text|) == 0 by {
        NoPages(pageSize, |text|);
      }
    } else {
      PagesAreTheText(text, pageSize, pages - 1);
      PageStart(text, pages, pageSize);
      NextPage(text, (pages - 1) * pageSize, pageSize);
    }
  }

  /** An earlier page never claims to be the last, and the last page knows that it is exactly when all
      text before it is ASCII. */
  lemma LastPageIsMarked(text: string, page: nat, pageSize: nat)
    requires page > 0 && pageSize > 0 && (page - 1) * pageSize <= |text|
    ensures var offset := (page - 1) * pageSize;
            ReadPage(text, page, pageSize).eof <==> offset + pageSize >= |text| && IsAscii(text[..offset])
  {
    hide Read;
    LastPieceIsMarked(text, (page - 1) * pageSize, pageSize);
  }
}
