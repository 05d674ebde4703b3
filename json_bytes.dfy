/**
 * The byte backend (Json/JsonByteBuffer.cs, Json/JsonOps.cs). A value is a
 * `JsonByteBuffer`: either read-only UTF-8 memory, or a growable writer that
 * an encoder is still filling. Lists and maps are built by opening a writer
 * with "[" or "{", appending comma-separated elements or `key:value` members,
 * and closing the writer with the matching bracket when the value is appended
 * to a prefix; two arrays or two objects are concatenated byte-wise. The
 * lemmas at the end state that this produces the array and object syntax of
 * RFC 8259 (section 4, objects; section 5, arrays).
 *
 * The reading operations (GetNumber, GetString, GetBool, GetValue, ReadList,
 * ReadMap) run the UTF-8 tokenizer of System.Text.Json and CreateNumeric and
 * CreateString its formatter and serializer; none of them is part of this
 * model.
 */
module JsonBytes {
  import opened Results

  newtype byte = x: int | 0 <= x < 256

  const LBRACKET: byte := 91   // [
  const RBRACKET: byte := 93   // ]
  const LBRACE: byte := 123    // {
  const RBRACE: byte := 125    // }
  const COMMA: byte := 44      // ,
  const COLON: byte := 58      // :

  /** ArrayBufferWriter<byte>: the bytes written so far, appended to in place. */
  class ByteWriter {
    var written: seq<byte>

    constructor ()
      ensures written == []
    {
      written := [];
    }

    method Write(bytes: seq<byte>)
      modifies this
      ensures written == old(written) + bytes
    {
      written := written + bytes;
    }
  }

  /**
   * The two constructors of the struct: memory without a writer, or a writer
   * with default (empty) memory.
   */
  datatype JsonByteBuffer = FromMemory(bytes: seq<byte>) | FromWriter(writer: ByteWriter)
  {
    /** `Memory`, which is also what the implicit conversions to memory and span yield. */
    function Memory(): seq<byte>
    {
      if FromMemory? then bytes else []
    }

    predicate HasWriter()
    {
      FromWriter?
    }

    predicate IsEmpty()
    {
      |Memory()| == 0 && !HasWriter()
    }
  }

  /** `default(JsonByteBuffer)`: empty memory and no writer. */
  const DefaultBuffer: JsonByteBuffer := FromMemory([])

  lemma BufferConstructors(m: seq<byte>, w: ByteWriter)
    ensures !FromMemory(m).HasWriter() && FromMemory(m).Memory() == m
    ensures FromWriter(w).HasWriter() && FromWriter(w).Memory() == []
    ensures FromMemory(m).IsEmpty() <==> m == []
    ensures !FromWriter(w).IsEmpty()
    ensures DefaultBuffer.IsEmpty()
  {
  }

  // ------------------------------------------------------------ constants

  const EmptyBytes: seq<byte> := [LBRACE, RBRACE]                    // {}
  const EmptyArrayBytes: seq<byte> := [LBRACKET, RBRACKET]           // []
  const TrueBytes: seq<byte> := [116, 114, 117, 101]                 // true
  const FalseBytes: seq<byte> := [102, 97, 108, 115, 101]            // false

  /** `Empty()`: the bytes of an empty object. */
  function Empty(): (r: JsonByteBuffer)
    ensures !r.HasWriter() && r.Memory() == EmptyBytes && IsEmptyJson(r)
  {
    FromMemory(EmptyBytes)
  }

  function CreateBool(value: bool): (r: JsonByteBuffer)
    ensures !r.HasWriter()
    ensures r.Memory() == (if value then TrueBytes else FalseBytes)
    ensures |r.Memory()| == (if value then 4 else 5)
  {
    if value then FromMemory(TrueBytes) else FromMemory(FalseBytes)
  }

  // ------------------------------------------------------- shape predicates

  /** `IsEmptyJson`: an empty buffer, or exactly the bytes `{}` or `[]`. */
  predicate IsEmptyJson(b: JsonByteBuffer)
  {
    b.IsEmpty() || b.Memory() == EmptyBytes || b.Memory() == EmptyArrayBytes
  }

  /** `IsJsonArray` reads the first and last byte of the memory, which must exist. */
  predicate IsJsonArray(b: JsonByteBuffer)
    requires |b.Memory()| > 0
  {
    b.Memory()[0] == LBRACKET && b.Memory()[|b.Memory()| - 1] == RBRACKET
  }

  predicate IsJsonObject(b: JsonByteBuffer)
    requires |b.Memory()| > 0
  {
    b.Memory()[0] == LBRACE && b.Memory()[|b.Memory()| - 1] == RBRACE
  }

  lemma EmptyJsonShapes(b: JsonByteBuffer)
    ensures IsEmptyJson(b) && |b.Memory()| > 0 ==> |b.Memory()| == 2 && (IsJsonArray(b) || IsJsonObject(b))
    ensures b.HasWriter() ==> !IsEmptyJson(b)
  {
  }

  /** `RemoveFromInput`: lookups are by key, so the input is returned as it is. */
  function RemoveFromInput(input: JsonByteBuffer, value: JsonByteBuffer): (r: JsonByteBuffer)
    ensures r == input
  {
    input
  }

  // ------------------------------------------------------- lists and maps

  /** `CreateEmptyList`: a new writer holding "[". */
  method CreateEmptyList() returns (r: JsonByteBuffer)
    ensures r.HasWriter() && fresh(r.writer) && r.writer.written == [LBRACKET]
  {
    var w := new ByteWriter();
    w.Write([LBRACKET]);
    r := FromWriter(w);
  }

  /** `CreateEmptyMap`: a new writer holding "{". */
  method CreateEmptyMap() returns (r: JsonByteBuffer)
    ensures r.HasWriter() && fresh(r.writer) && r.writer.written == [LBRACE]
  {
    var w := new ByteWriter();
    w.Write([LBRACE]);
    r := FromWriter(w);
  }

  function WriterOf(b: JsonByteBuffer): set<ByteWriter>
  {
    if b.HasWriter() then {b.writer} else {}
  }

  /** The bytes `AddToList` writes: a comma unless the list is still empty, then the element's memory. */
  function ListAddition(written: seq<byte>, element: seq<byte>): seq<byte>
    requires |written| > 0
  {
    (if written[|written| - 1] != LBRACKET then [COMMA] else []) + element
  }

  const ListReadOnly := "Could not append value: list was read-only or finalized"
  const MapReadOnly := "Could not append to map: map was read-only or finalized."

  /**
   * `AddToList`: a buffer without a writer is refused; otherwise the
   * element's memory (nothing, for a writer-backed element) is appended in
   * place and the same buffer is returned.
   */
  method AddToList(list: JsonByteBuffer, element: JsonByteBuffer) returns (r: DataResult<JsonByteBuffer>)
    requires list.HasWriter() ==> |list.writer.written| > 0
    modifies WriterOf(list)
    ensures !list.HasWriter() ==> r == Error(ListReadOnly, Some(DefaultBuffer))
    ensures list.HasWriter() ==> r == Success(list)
    ensures list.HasWriter() ==> list.writer.written == old(list.writer.written) + ListAddition(old(list.writer.written), element.Memory())
  {
    if !list.HasWriter() {
      return Fail(ListReadOnly, Some(DefaultBuffer));
    }
    var w := list.writer;
    if w.written[|w.written| - 1] != LBRACKET {
      w.Write([COMMA]);
    }
    w.Write(element.Memory());
    return Success(list);
  }

  /** The bytes `AddToMap` writes: a comma unless the map is still empty, then `key:value`. */
  function MapAddition(written: seq<byte>, key: seq<byte>, value: seq<byte>): seq<byte>
    requires |written| > 0
  {
    (if written[|written| - 1] != LBRACE then [COMMA] else []) + key + [COLON] + value
  }

  method AddToMap(m: JsonByteBuffer, key: JsonByteBuffer, value: JsonByteBuffer) returns (r: DataResult<JsonByteBuffer>)
    requires m.HasWriter() ==> |m.writer.written| > 0
    modifies WriterOf(m)
    ensures !m.HasWriter() ==> r == Error(MapReadOnly, Some(DefaultBuffer))
    ensures m.HasWriter() ==> r == Success(m)
    ensures m.HasWriter() ==> m.writer.written == old(m.writer.written) + MapAddition(old(m.writer.written), key.Memory(), value.Memory())
  {
    if !m.HasWriter() {
      return Fail(MapReadOnly, Some(DefaultBuffer));
    }
    var w := m.writer;
    ghost var start := w.written;
    if w.written[|w.written| - 1] != LBRACE {
      w.Write([COMMA]);
    }
    ghost var separated := w.written;
    assert separated == start + (if start[|start| - 1] != LBRACE then [COMMA] else []);
    w.Write(key.Memory());
    w.Write([COLON]);
    w.Write(value.Memory());
    assert w.written == separated + key.Memory() + [COLON] + value.Memory();
    return Success(m);
  }

  // --------------------------------------------------------- AppendToPrefix

  /** The closing bracket matching the writer's first byte, if it is one. */
  function Closed(written: seq<byte>): seq<byte>
    requires |written| > 0
  {
    if written[0] == LBRACKET then written + [RBRACKET]
    else if written[0] == LBRACE then written + [RBRACE]
    else written
  }

  /** The value `AppendToPrefix` goes on with: a writer is closed and its bytes taken as memory. */
  function Finalized(value: JsonByteBuffer): (r: JsonByteBuffer)
    reads if value.HasWriter() then {value.writer} else {}
    requires value.HasWriter() ==> |value.writer.written| > 0
    ensures !r.HasWriter()
  {
    if value.HasWriter() then FromMemory(Closed(value.writer.written)) else value
  }

  /** The inner bytes of `left` and `right` joined by a comma and enclosed by `open` and `close`. */
  function Merged(open: byte, close: byte, left: seq<byte>, right: seq<byte>): (r: seq<byte>)
    requires |left| >= 2 && |right| >= 2
    ensures |r| == |left| + |right| - 1
  {
    [open] + left[1..|left| - 1] + [COMMA] + right[1..|right| - 1] + [close]
  }

  /**
   * The source reads the prefix's first byte once neither side is empty JSON,
   * which a writer-backed prefix (with empty memory) does not have.
   */
  predicate CanAppend(prefix: JsonByteBuffer, finalized: JsonByteBuffer)
  {
    IsEmptyJson(prefix) || IsEmptyJson(finalized) || |prefix.Memory()| > 0
  }

  /** The choice `AppendToPrefix` makes once the value is finalized (Json/JsonOps.cs, lines 270-282). */
  function Appended(prefix: JsonByteBuffer, finalized: JsonByteBuffer): (r: JsonByteBuffer)
    requires !finalized.HasWriter() && CanAppend(prefix, finalized)
  {
    if IsEmptyJson(prefix) then finalized
    else if IsEmptyJson(finalized) then prefix
    else if IsJsonArray(prefix) && IsJsonArray(finalized) then FromMemory(Merged(LBRACKET, RBRACKET, prefix.Memory(), finalized.Memory()))
    else if IsJsonObject(prefix) && IsJsonObject(finalized) then FromMemory(Merged(LBRACE, RBRACE, prefix.Memory(), finalized.Memory()))
    else finalized
  }

  /**
   * `MergeArrays`/`MergeObjects` after their empty-input checks: a fresh
   * array filled by index writes and two copies.
   */
  method MergeEnclosed(open: byte, close: byte, left: seq<byte>, right: seq<byte>) returns (merged: array<byte>)
    requires |left| >= 2 && |right| >= 2
    ensures fresh(merged)
    ensures merged[..] == Merged(open, close, left, right)
  {
    var leftValues := left[1..|left| - 1];
    var rightValues := right[1..|right| - 1];
    var n := 1 + |leftValues| + 1 + |rightValues| + 1;
    merged := new byte[n];
    merged[0] := open;
    merged[n - 1] := close;
    merged[|leftValues| + 1] := COMMA;
    for k := 0 to |leftValues|
      invariant merged[0] == open && merged[n - 1] == close && merged[|leftValues| + 1] == COMMA
      invariant forall j | 0 <= j < k :: merged[1 + j] == leftValues[j]
    {
      merged[1 + k] := leftValues[k];
    }
    for k := 0 to |rightValues|
      invariant merged[0] == open && merged[n - 1] == close && merged[|leftValues| + 1] == COMMA
      invariant forall j | 0 <= j < |leftValues| :: merged[1 + j] == leftValues[j]
      invariant forall j | 0 <= j < k :: merged[|leftValues| + 2 + j] == rightValues[j]
    {
      merged[|leftValues| + 2 + k] := rightValues[k];
    }
    ghost var spec := Merged(open, close, left, right);
    assert |merged[..]| == |spec|;
    forall i | 0 <= i < n
      ensures merged[i] == spec[i]
    {
      if 1 <= i <= |leftValues| {
        assert spec[i] == leftValues[i - 1];
      } else if |leftValues| + 2 <= i < n - 1 {
        assert spec[i] == rightValues[i - |leftValues| - 2];
      }
    }
  }

  /** `MergeArrays`: either side empty gives the other; otherwise the elements of both, left first. */
  method MergeArrays(left: JsonByteBuffer, right: JsonByteBuffer) returns (r: JsonByteBuffer)
    requires |left.Memory()| > 0 && |right.Memory()| > 0 && IsJsonArray(left) && IsJsonArray(right)
    ensures IsEmptyJson(left) ==> r == right
    ensures !IsEmptyJson(left) && IsEmptyJson(right) ==> r == left
    ensures !IsEmptyJson(left) && !IsEmptyJson(right) ==> r == FromMemory(Merged(LBRACKET, RBRACKET, left.Memory(), right.Memory()))
  {
    if IsEmptyJson(left) {
      return right;
    }
    if IsEmptyJson(right) {
      return left;
    }
    var merged := MergeEnclosed(LBRACKET, RBRACKET, left.Memory(), right.Memory());
    return FromMemory(merged[..]);
  }

  /** `MergeObjects`: the same for two objects, with braces. */
  method MergeObjects(left: JsonByteBuffer, right: JsonByteBuffer) returns (r: JsonByteBuffer)
    requires |left.Memory()| > 0 && |right.Memory()| > 0 && IsJsonObject(left) && IsJsonObject(right)
    ensures IsEmptyJson(left) ==> r == right
    ensures !IsEmptyJson(left) && IsEmptyJson(right) ==> r == left
    ensures !IsEmptyJson(left) && !IsEmptyJson(right) ==> r == FromMemory(Merged(LBRACE, RBRACE, left.Memory(), right.Memory()))
  {
    if IsEmptyJson(left) {
      return right;
    }
    if IsEmptyJson(right) {
      return left;
    }
    var merged := MergeEnclosed(LBRACE, RBRACE, left.Memory(), right.Memory());
    return FromMemory(merged[..]);
  }

  /**
   * `AppendToPrefix`: a writer-backed value is first closed in place; then
   * an empty prefix gives the value, an empty value the prefix, two arrays or
   * two objects their concatenation, and anything else the value.
   */
  method AppendToPrefix(prefix: JsonByteBuffer, value: JsonByteBuffer) returns (r: JsonByteBuffer)
    requires value.HasWriter() ==> |value.writer.written| > 0
    requires CanAppend(prefix, Finalized(value))
    modifies WriterOf(value)
    ensures value.HasWriter() ==> value.writer.written == Closed(old(value.writer.written))
    ensures r == Appended(prefix, old(Finalized(value)))
  {
    var finalizedValue := value;
    if value.HasWriter() {
      var w := value.writer;
      if w.written[0] == LBRACKET {
        w.Write([RBRACKET]);
      } else if w.written[0] == LBRACE {
        w.Write([RBRACE]);
      }
      finalizedValue := FromMemory(w.written);
    }
    if IsEmptyJson(prefix) {
      return finalizedValue;
    }
    if IsEmptyJson(finalizedValue) {
      return prefix;
    }
    if IsJsonArray(prefix) && IsJsonArray(finalizedValue) {
      r := MergeArrays(prefix, finalizedValue);
      return;
    }
    if IsJsonObject(prefix) && IsJsonObject(finalizedValue) {
      r := MergeObjects(prefix, finalizedValue);
      return;
    }
    return finalizedValue;
  }

  /** The identity rules: an empty side leaves the other as it is. */
  lemma AppendIdentities(prefix: JsonByteBuffer, value: JsonByteBuffer)
    requires !value.HasWriter()
    ensures IsEmptyJson(prefix) ==> Appended(prefix, value) == value
    ensures !IsEmptyJson(prefix) && IsEmptyJson(value) ==> Appended(prefix, value) == prefix
    ensures Appended(Empty(), value) == value
  {
  }

  // --------------------------------------------- RFC 8259 array and object text

  /** `parts` separated by `sep`. */
  function Join(parts: seq<seq<byte>>, sep: byte): seq<byte>
    decreases |parts|
  {
    if |parts| == 0 then []
    else if |parts| == 1 then parts[0]
    else Join(parts[..|parts| - 1], sep) + [sep] + parts[|parts| - 1]
  }

  /** RFC 8259 section 5: `[` elements separated by `,` `]`. */
  function ArrayText(elements: seq<seq<byte>>): seq<byte>
  {
    [LBRACKET] + Join(elements, COMMA) + [RBRACKET]
  }

  function MemberTexts(members: seq<(seq<byte>, seq<byte>)>): (r: seq<seq<byte>>)
    ensures |r| == |members|
    ensures forall i | 0 <= i < |members| :: r[i] == members[i].0 + [COLON] + members[i].1
  {
    seq(|members|, i requires 0 <= i < |members| => members[i].0 + [COLON] + members[i].1)
  }

  /** Each member's text splits back, at the colon after its key, into the key and the value. */
  lemma MemberTextSplits(members: seq<(seq<byte>, seq<byte>)>, i: nat)
    requires i < |members|
    ensures var t, n := MemberTexts(members)[i], |members[i].0|;
      t[..n] == members[i].0 && t[n] == COLON && t[n + 1..] == members[i].1
  {
    var t, n := MemberTexts(members)[i], |members[i].0|;
    assert t == members[i].0 + [COLON] + members[i].1;
    assert t[n + 1..] == members[i].1;
  }

  /** RFC 8259 section 4: `{` name `:` value members separated by `,` `}`. */
  function ObjectText(members: seq<(seq<byte>, seq<byte>)>): seq<byte>
  {
    [LBRACE] + Join(MemberTexts(members), COMMA) + [RBRACE]
  }

  lemma {:induction false} JoinAppend(a: seq<seq<byte>>, b: seq<seq<byte>>, sep: byte)
    requires |a| > 0 && |b| > 0
    ensures Join(a + b, sep) == Join(a, sep) + [sep] + Join(b, sep)
    decreases |b|
  {
    if |b| == 1 {
      assert (a + b)[..|a + b| - 1] == a;
    } else {
      var b0 := b[..|b| - 1];
      assert (a + b)[..|a + b| - 1] == a + b0;
      JoinAppend(a, b0, sep);
    }
  }

  /** A non-empty join of non-empty parts ends with the last part's last byte. */
  lemma {:induction false} JoinLast(parts: seq<seq<byte>>, sep: byte)
    requires |parts| > 0 && |parts[|parts| - 1]| > 0
    ensures |Join(parts, sep)| > 0
    ensures Join(parts, sep)[|Join(parts, sep)| - 1] == parts[|parts| - 1][|parts[|parts| - 1]| - 1]
  {
  }

  /** Concatenating the text of two non-empty arrays gives the text of the joined array. */
  lemma MergedArrays(ls: seq<seq<byte>>, rs: seq<seq<byte>>)
    requires |ls| > 0 && |rs| > 0
    ensures Merged(LBRACKET, RBRACKET, ArrayText(ls), ArrayText(rs)) == ArrayText(ls + rs)
  {
    JoinAppend(ls, rs, COMMA);
    assert ArrayText(ls)[1..|ArrayText(ls)| - 1] == Join(ls, COMMA);
    assert ArrayText(rs)[1..|ArrayText(rs)| - 1] == Join(rs, COMMA);
  }

  /** The same for objects: the members of both, left first, duplicates kept. */
  lemma MergedObjects(lm: seq<(seq<byte>, seq<byte>)>, rm: seq<(seq<byte>, seq<byte>)>)
    requires |lm| > 0 && |rm| > 0
    ensures Merged(LBRACE, RBRACE, ObjectText(lm), ObjectText(rm)) == ObjectText(lm + rm)
  {
    assert MemberTexts(lm + rm) == MemberTexts(lm) + MemberTexts(rm);
    JoinAppend(MemberTexts(lm), MemberTexts(rm), COMMA);
    assert ObjectText(lm)[1..|ObjectText(lm)| - 1] == Join(MemberTexts(lm), COMMA);
    assert ObjectText(rm)[1..|ObjectText(rm)| - 1] == Join(MemberTexts(rm), COMMA);
  }

  /** A well-formed element for the byte writer: some bytes, not ending in an opening bracket. */
  predicate Element(e: seq<byte>)
  {
    |e| > 0 && e[|e| - 1] != LBRACKET && e[|e| - 1] != LBRACE
  }

  /** What a list writer holds after `CreateEmptyList` and one `AddToList` per element. */
  function OpenList(elements: seq<seq<byte>>): seq<byte>
  {
    [LBRACKET] + Join(elements, COMMA)
  }

  /** Adding an element to an open list extends the list, comma included. */
  lemma ListAdditionExtends(elements: seq<seq<byte>>, e: seq<byte>)
    requires forall i | 0 <= i < |elements| :: Element(elements[i])
    requires Element(e)
    ensures OpenList(elements) + ListAddition(OpenList(elements), e) == OpenList(elements + [e])
  {
    if |elements| > 0 {
      JoinLast(elements, COMMA);
      assert (elements + [e])[..|elements|] == elements;
    }
  }

  /** Closing an open list yields the array's text. */
  lemma ClosedList(elements: seq<seq<byte>>)
    ensures Closed(OpenList(elements)) == ArrayText(elements)
  {
  }

  /** What a map writer holds after `CreateEmptyMap` and one `AddToMap` per member. */
  function OpenMap(members: seq<(seq<byte>, seq<byte>)>): seq<byte>
  {
    [LBRACE] + Join(MemberTexts(members), COMMA)
  }

  lemma MapAdditionExtends(members: seq<(seq<byte>, seq<byte>)>, key: seq<byte>, value: seq<byte>)
    requires forall i | 0 <= i < |members| :: Element(members[i].1)
    requires Element(value)
    ensures OpenMap(members) + MapAddition(OpenMap(members), key, value) == OpenMap(members + [(key, value)])
  {
    var texts := MemberTexts(members);
    var texts' := MemberTexts(members + [(key, value)]);
    assert texts'[..|members|] == texts;
    if |members| > 0 {
      JoinLast(texts, COMMA);
    }
  }

  lemma ClosedMap(members: seq<(seq<byte>, seq<byte>)>)
    ensures Closed(OpenMap(members)) == ObjectText(members)
  {
  }

  /** An array's text is `[]` only when it has no elements. */
  lemma {:induction false} ArrayTextEmpty(elements: seq<seq<byte>>)
    requires forall i | 0 <= i < |elements| :: Element(elements[i])
    ensures ArrayText(elements) == EmptyArrayBytes <==> elements == []
    ensures ArrayText(elements) != EmptyBytes
  {
    if |elements| > 0 {
      JoinLast(elements, COMMA);
    }
  }

  lemma {:induction false} ObjectTextEmpty(members: seq<(seq<byte>, seq<byte>)>)
    requires forall i | 0 <= i < |members| :: Element(members[i].1)
    ensures ObjectText(members) == EmptyBytes <==> members == []
    ensures ObjectText(members) != EmptyArrayBytes
  {
    if |members| > 0 {
      JoinLast(MemberTexts(members), COMMA);
    }
  }

  /**
   * Appending one array to another yields the array of all their elements,
   * whichever of them is empty.
   */
  lemma AppendArrays(ls: seq<seq<byte>>, rs: seq<seq<byte>>)
    requires forall i | 0 <= i < |ls| :: Element(ls[i])
    requires forall i | 0 <= i < |rs| :: Element(rs[i])
    ensures Appended(FromMemory(ArrayText(ls)), FromMemory(ArrayText(rs))) == FromMemory(ArrayText(ls + rs))
  {
    ArrayTextEmpty(ls);
    ArrayTextEmpty(rs);
    if ls == [] {
      assert ls + rs == rs;
    } else if rs == [] {
      assert ls + rs == ls;
    } else {
      MergedArrays(ls, rs);
    }
  }

  /** Appending one object to another yields the object of all their members, left first. */
  lemma AppendObjects(lm: seq<(seq<byte>, seq<byte>)>, rm: seq<(seq<byte>, seq<byte>)>)
    requires forall i | 0 <= i < |lm| :: Element(lm[i].1)
    requires forall i | 0 <= i < |rm| :: Element(rm[i].1)
    ensures Appended(FromMemory(ObjectText(lm)), FromMemory(ObjectText(rm))) == FromMemory(ObjectText(lm + rm))
  {
    ObjectTextEmpty(lm);
    ObjectTextEmpty(rm);
    if lm == [] {
      assert lm + rm == rm;
    } else if rm == [] {
      assert lm + rm == lm;
    } else {
      MergedObjects(lm, rm);
    }
  }

  /** An array appended to an object prefix (or the reverse) replaces it. */
  lemma AppendMismatchedShapes(ls: seq<seq<byte>>, lm: seq<(seq<byte>, seq<byte>)>)
    requires forall i | 0 <= i < |ls| :: Element(ls[i])
    requires forall i | 0 <= i < |lm| :: Element(lm[i].1)
    requires ls != [] && lm != []
    ensures Appended(FromMemory(ObjectText(lm)), FromMemory(ArrayText(ls))) == FromMemory(ArrayText(ls))
    ensures Appended(FromMemory(ArrayText(ls)), FromMemory(ObjectText(lm))) == FromMemory(ObjectText(lm))
  {
    ArrayTextEmpty(ls);
    ObjectTextEmpty(lm);
  }
}
