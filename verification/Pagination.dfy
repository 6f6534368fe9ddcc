/**
 The list endpoints' opaque cursor and pages (apps/api/pagination.py).  Base64url is
 section 5 of RFC 4648, with the padding stripped on the way out and put back on the way in.
 */
module Pagination {
  import opened Queue

  const DEFAULT_LIMIT := 50
  const MAX_LIMIT := 200
  const MAX_OFFSET := 10_000_000
  const MAX_CURSOR := 200

  // ------------------------------------------------------------------ base64url

  /** The character of a six-bit value. */
  function CharOf(s: nat): char
    requires s < 64
  {
    if s < 26 then 'A' + s as char
    else if s < 52 then 'a' + (s - 26) as char
    else if s < 62 then '0' + (s - 52) as char
    else if s == 62 then '-' else '_'
  }

  /** The value of a character; the standard alphabet's two are taken as well. */
  function SextetOf(c: char): (s: Option<nat>)
    ensures s.Some? ==> s.value < 64
  {
    if 'A' <= c <= 'Z' then Some(c as nat - 'A' as nat)
    else if 'a' <= c <= 'z' then Some(c as nat - 'a' as nat + 26)
    else if '0' <= c <= '9' then Some(c as nat - '0' as nat + 52)
    else if c == '-' || c == '+' then Some(62)
    else if c == '_' || c == '/' then Some(63)
    else None
  }

  predicate Bytes(bytes: seq<nat>) {
    forall i | 0 <= i < |bytes| :: bytes[i] < 256
  }

  /** Encoded, without padding. */
  function Encode64(bytes: seq<nat>): (s: string)
    requires Bytes(bytes)
    ensures 3 * |s| <= 4 * |bytes| + 2
  {
    if bytes == [] then ""
    else
      var a := bytes[0];
      if |bytes| == 1 then [CharOf(a / 4), CharOf(a % 4 * 16)]
      else
        var b := bytes[1];
        if |bytes| == 2 then [CharOf(a / 4), CharOf(a % 4 * 16 + b / 16), CharOf(b % 16 * 4)]
        else
          var c := bytes[2];
          [CharOf(a / 4), CharOf(a % 4 * 16 + b / 16), CharOf(b % 16 * 4 + c / 64), CharOf(c % 64)] + Encode64(bytes[3..])
  }

  /** How far a decoder has got into a group of four, the bits it carries, and what it has put out. */
  datatype Reader = Reader(quad: nat, left: nat, pads: nat, out: seq<nat>, finished: bool)

  /** One character: characters outside the alphabet are skipped, and a full pad ends the input. */
  function Feed(r: Reader, c: char): Reader {
    if r.finished then r
    else if c == '=' then
      if r.quad < 2 then r
      else if r.quad + r.pads + 1 >= 4 then r.(pads := r.pads + 1, finished := true)
      else r.(pads := r.pads + 1)
    else if SextetOf(c).None? then r
    else
      var s := SextetOf(c).value;
      if r.quad == 0 then Reader(1, s, 0, r.out, false)
      else if r.quad == 1 then Reader(2, s % 16, 0, r.out + [r.left * 4 + s / 16], false)
      else if r.quad == 2 then Reader(3, s % 4, 0, r.out + [r.left * 16 + s / 4], false)
      else Reader(0, 0, 0, r.out + [r.left * 64 + s], false)
  }

  function FeedAll(r: Reader, s: string): Reader
    decreases |s|
  {
    if s == "" then r else FeedAll(Feed(r, s[0]), s[1..])
  }

  /** The bytes, or nothing for a group left incomplete. */
  function Decode64(s: string): Option<seq<nat>> {
    var r := FeedAll(Reader(0, 0, 0, [], false), s);
    if r.finished || r.quad == 0 then Some(r.out) else None
  }

  /** As many pads as bring the length to a multiple of four. */
  function Padding(length: nat): string {
    match length % 4
    case 0 => ""
    case 1 => "==="
    case 2 => "=="
    case _ => "="
  }

  lemma SextetRoundTrip(s: nat)
    requires s < 64
    ensures SextetOf(CharOf(s)) == Some(s) && CharOf(s) != '='
  {
  }

  /** Three bytes through their four characters. */
  lemma GroupRoundTrip(a: nat, b: nat, c: nat, out: seq<nat>)
    requires a < 256 && b < 256 && c < 256
    ensures var r := Feed(Feed(Feed(Feed(Reader(0, 0, 0, out, false),
                     CharOf(a / 4)), CharOf(a % 4 * 16 + b / 16)), CharOf(b % 16 * 4 + c / 64)), CharOf(c % 64));
            r == Reader(0, 0, 0, out + [a, b, c], false)
  {
    hide CharOf, SextetOf;
    SextetRoundTrip(a / 4);
    SextetRoundTrip(a % 4 * 16 + b / 16);
    SextetRoundTrip(b % 16 * 4 + c / 64);
    SextetRoundTrip(c % 64);
    assert out + [a] + [b] + [c] == out + [a, b, c];
  }

  lemma FeedOne(r: Reader, c: char, rest: string)
    ensures FeedAll(r, [c] + rest) == FeedAll(Feed(r, c), rest)
  {
    assert ([c] + rest)[1..] == rest;
  }

  lemma FeedFour(r: Reader, w: char, x: char, y: char, z: char, rest: string)
    ensures FeedAll(r, [w, x, y, z] + rest) == FeedAll(Feed(Feed(Feed(Feed(r, w), x), y), z), rest)
  {
    var one := Feed(r, w);
    var two := Feed(one, x);
    assert [w, x, y, z] + rest == [w] + ([x] + ([y] + ([z] + rest)));
    FeedOne(r, w, [x] + ([y] + ([z] + rest)));
    FeedOne(one, x, [y] + ([z] + rest));
    FeedOne(two, y, [z] + rest);
    FeedOne(Feed(two, y), z, rest);
  }

  /** A last group of one byte. */
  lemma OneLeft(a: nat, out: seq<nat>)
    requires a < 256
    ensures FeedAll(Reader(0, 0, 0, out, false), [CharOf(a / 4), CharOf(a % 4 * 16), '=', '='])
            == Reader(2, 0, 2, out + [a], true)
  {
    hide CharOf, SextetOf;
    SextetRoundTrip(a / 4);
    SextetRoundTrip(a % 4 * 16);
    FeedFour(Reader(0, 0, 0, out, false), CharOf(a / 4), CharOf(a % 4 * 16), '=', '=', "");
    assert [CharOf(a / 4), CharOf(a % 4 * 16), '=', '='] + "" == [CharOf(a / 4), CharOf(a % 4 * 16), '=', '='];
  }

  /** A last group of two bytes. */
  lemma TwoLeft(a: nat, b: nat, out: seq<nat>)
    requires a < 256 && b < 256
    ensures FeedAll(Reader(0, 0, 0, out, false), [CharOf(a / 4), CharOf(a % 4 * 16 + b / 16), CharOf(b % 16 * 4), '='])
            == Reader(3, 0, 1, out + [a, b], true)
  {
    hide CharOf, SextetOf;
    SextetRoundTrip(a / 4);
    SextetRoundTrip(a % 4 * 16 + b / 16);
    SextetRoundTrip(b % 16 * 4);
    var s := [CharOf(a / 4), CharOf(a % 4 * 16 + b / 16), CharOf(b % 16 * 4), '='];
    FeedFour(Reader(0, 0, 0, out, false), s[0], s[1], s[2], s[3], "");
    assert s + "" == s && [s[0], s[1], s[2], s[3]] == s;
    assert out + [a] + [b] == out + [a, b];
  }

  /** Whole groups of three become whole groups of four. */
  lemma {:induction false} Encode64Length(bytes: seq<nat>) returns (groups: nat, left: nat)
    requires Bytes(bytes)
    ensures left < 3 && |bytes| == 3 * groups + left
    ensures |Encode64(bytes)| == 4 * groups + if left == 0 then 0 else left + 1
  {
    if |bytes| < 3 {
      groups, left := 0, |bytes|;
    } else {
      groups, left := Encode64Length(bytes[3..]);
      groups := groups + 1;
    }
  }

  lemma PaddingOfTail(length: nat)
    ensures Padding(length + 4) == Padding(length)
  {
  }

  /** The decoder's answer to what a byte string encodes to, after what it has put out before. */
  ghost predicate GivesBack(bytes: seq<nat>, out: seq<nat>)
    requires Bytes(bytes)
  {
    var r := FeedAll(Reader(0, 0, 0, out, false), Encode64(bytes) + Padding(|Encode64(bytes)|));
    (r.finished || r.quad == 0) && r.out == out + bytes
  }

  lemma GivesBackShort(bytes: seq<nat>, out: seq<nat>)
    requires Bytes(bytes) && |bytes| < 3
    ensures GivesBack(bytes, out)
  {
    hide CharOf, SextetOf, Feed;
    var s := Encode64(bytes);
    if bytes == [] {
      assert s + Padding(|s|) == "" && out + bytes == out;
    } else if |bytes| == 1 {
      OneLeft(bytes[0], out);
      assert s + Padding(|s|) == [s[0], s[1], '=', '='];
      assert bytes == [bytes[0]];
    } else {
      TwoLeft(bytes[0], bytes[1], out);
      assert s + Padding(|s|) == [s[0], s[1], s[2], '='];
      assert bytes == [bytes[0], bytes[1]];
    }
  }

  lemma GivesBackGroup(bytes: seq<nat>, out: seq<nat>)
    requires Bytes(bytes) && |bytes| >= 3 && GivesBack(bytes[3..], out + [bytes[0], bytes[1], bytes[2]])
    ensures GivesBack(bytes, out)
  {
    hide CharOf, SextetOf, Feed;
    var s, tail := Encode64(bytes), Encode64(bytes[3..]);
    var more := out + [bytes[0], bytes[1], bytes[2]];
    GroupRoundTrip(bytes[0], bytes[1], bytes[2], out);
    PaddingOfTail(|tail|);
    assert s + Padding(|s|) == [s[0], s[1], s[2], s[3]] + (tail + Padding(|tail|));
    FeedFour(Reader(0, 0, 0, out, false), s[0], s[1], s[2], s[3], tail + Padding(|tail|));
    assert more + bytes[3..] == out + bytes;
  }

  lemma {:induction false} AlwaysGivesBack(bytes: seq<nat>, out: seq<nat>)
    requires Bytes(bytes)
    ensures GivesBack(bytes, out)
  {
    if |bytes| < 3 {
      GivesBackShort(bytes, out);
    } else {
      AlwaysGivesBack(bytes[3..], out + [bytes[0], bytes[1], bytes[2]]);
      GivesBackGroup(bytes, out);
    }
  }

  /** Base64url, padding stripped and restored, gives every byte string back. */
  lemma Base64RoundTrip(bytes: seq<nat>)
    requires Bytes(bytes)
    ensures Decode64(Encode64(bytes) + Padding(|Encode64(bytes)|)) == Some(bytes)
  {
    AlwaysGivesBack(bytes, []);
    assert [] + bytes == bytes;
  }

  const UPPER := "ABCDEFGHIJKLMNOPQRSTUVWXYZ"
  const LOWER := "abcdefghijklmnopqrstuvwxyz"
  const DIGIT := "0123456789"

  /** The URL-safe alphabet in its order, table 2 of RFC 4648. */
  predicate StandsFor(c: char, s: nat)
    requires s < 64
  {
    if s < 26 then c == UPPER[s] else if s < 52 then c == LOWER[s - 26] else if s < 62 then c == DIGIT[s - 52]
    else if s == 62 then c == '-' else c == '_'
  }

  lemma AlphabetIs(s: nat)
    requires s < 64
    ensures StandsFor(CharOf(s), s)
  {
    assert UPPER[0] == 'A' && UPPER[25] == 'Z' && LOWER[0] == 'a' && DIGIT[0] == '0';
  }

  /** Four six-bit values that hold the bits of three bytes. */
  ghost predicate SameBits(w: nat, x: nat, y: nat, z: nat, a: nat, b: nat, c: nat) {
    w < 64 && x < 64 && y < 64 && z < 64 && ((w * 64 + x) * 64 + y) * 64 + z == (a * 256 + b) * 256 + c
  }

  lemma Regrouped(a: nat, b: nat, c: nat)
    requires a < 256 && b < 256 && c < 256
    ensures SameBits(a / 4, a % 4 * 16 + b / 16, b % 16 * 4 + c / 64, c % 64, a, b, c)
  {
  }

  lemma FourCharacters(a: nat, b: nat, c: nat)
    requires a < 256 && b < 256 && c < 256
    ensures Encode64([a, b, c]) ==
            [CharOf(a / 4), CharOf(a % 4 * 16 + b / 16), CharOf(b % 16 * 4 + c / 64), CharOf(c % 64)]
  {
    hide CharOf;
    assert [a, b, c][3..] == [];
  }

  /** Four characters stand for the bits of three bytes, in order. */
  lemma EncodesBits(a: nat, b: nat, c: nat)
    requires a < 256 && b < 256 && c < 256
    ensures var s := Encode64([a, b, c]);
            |s| == 4 && exists w: nat, x: nat, y: nat, z: nat ::
              && SameBits(w, x, y, z, a, b, c)
              && StandsFor(s[0], w) && StandsFor(s[1], x) && StandsFor(s[2], y) && StandsFor(s[3], z)
  {
    hide CharOf, StandsFor, Encode64, SameBits;
    var w, x, y, z := a / 4, a % 4 * 16 + b / 16, b % 16 * 4 + c / 64, c % 64;
    Regrouped(a, b, c);
    AlphabetIs(w);
    AlphabetIs(x);
    AlphabetIs(y);
    AlphabetIs(z);
    FourCharacters(a, b, c);
  }

  /** One or two bytes are encoded as if zeros followed, without the characters that hold nothing but those. */
  lemma EncodesTail(a: nat, b: nat)
    requires a < 256 && b < 256
    ensures Encode64([a, b]) == Encode64([a, b, 0])[..3] && Encode64([a]) == Encode64([a, 0, 0])[..2]
  {
    hide CharOf;
    assert [a, b, 0][3..] == [] && [a, 0, 0][3..] == [];
    assert Encode64([a, b, 0]) == [CharOf(a / 4), CharOf(a % 4 * 16 + b / 16), CharOf(b % 16 * 4), CharOf(0)];
    assert Encode64([a, 0, 0]) == [CharOf(a / 4), CharOf(a % 4 * 16), CharOf(0), CharOf(0)];
  }

  /** A longer text is encoded three bytes at a time. */
  lemma EncodesInGroups(a: nat, b: nat, c: nat, rest: seq<nat>)
    requires Bytes([a, b, c] + rest)
    ensures Bytes([a, b, c]) && Bytes(rest) && Encode64([a, b, c] + rest) == Encode64([a, b, c]) + Encode64(rest)
  {
    assert ([a, b, c] + rest)[3..] == rest && [a, b, c][3..] == [];
    assert forall i | 0 <= i < |rest| :: rest[i] == ([a, b, c] + rest)[i + 3];
    assert forall i | 0 <= i < 3 :: [a, b, c][i] == ([a, b, c] + rest)[i];
  }

  // ------------------------------------------------------------------ the document

  /** A number in decimal, as ASCII bytes. */
  function Decimal(n: nat): (d: seq<nat>)
    ensures |d| > 0 && forall i | 0 <= i < |d| :: 48 <= d[i] <= 57
    ensures |d| > 1 ==> d[0] != 48
    ensures n > 0 ==> d[0] != 48
  {
    if n < 10 then [48 + n] else Decimal(n / 10) + [48 + n % 10]
  }

  predicate Digits(d: seq<nat>) {
    forall i | 0 <= i < |d| :: 48 <= d[i] <= 57
  }

  function ValueOf(d: seq<nat>): nat
    requires Digits(d)
  {
    if d == [] then 0 else ValueOf(d[..|d| - 1]) * 10 + (d[|d| - 1] - 48)
  }

  lemma {:induction false} DecimalRoundTrip(n: nat)
    ensures ValueOf(Decimal(n)) == n
  {
    var d := Decimal(n);
    if n < 10 {
      assert d[..0] == [];
    } else {
      DecimalRoundTrip(n / 10);
      assert d[..|d| - 1] == Decimal(n / 10);
    }
  }

  lemma {:induction false} DecimalSize(n: nat, k: nat, bound: nat)
    requires k > 0 && n < bound && bound == PowerOfTen(k)
    ensures |Decimal(n)| <= k
  {
    if n >= 10 { DecimalSize(n / 10, k - 1, PowerOfTen(k - 1)); }
  }

  function PowerOfTen(k: nat): nat {
    if k == 0 then 1 else 10 * PowerOfTen(k - 1)
  }

  /** The bytes of `{"o":` and `}`. */
  const OPENING: seq<nat> := [123, 34, 111, 34, 58]
  const CLOSING: seq<nat> := [125]

  /** `{"o":N}`, as `json.dumps` writes it. */
  function Document(n: nat): (bytes: seq<nat>)
    ensures Bytes(bytes)
  {
    OPENING + Decimal(n) + CLOSING
  }

  /** ASCII bytes as text. */
  function Text(bytes: seq<nat>): (s: string)
    requires forall i | 0 <= i < |bytes| :: bytes[i] < 128
    ensures |s| == |bytes| && forall i | 0 <= i < |s| :: s[i] == bytes[i] as char
  {
    seq(|bytes|, i requires 0 <= i < |bytes| => bytes[i] as char)
  }

  lemma TextAppends(a: seq<nat>, b: seq<nat>)
    requires (forall i | 0 <= i < |a| :: a[i] < 128) && (forall i | 0 <= i < |b| :: b[i] < 128)
    ensures (forall i | 0 <= i < |a + b| :: (a + b)[i] < 128) && Text(a + b) == Text(a) + Text(b)
  {
  }

  lemma Brackets()
    ensures Text(OPENING) == "{\"o\":" && Text(CLOSING) == "}"
  {
  }

  /** What a cursor carries is the JSON text `{"o":N}`, N in decimal. */
  lemma DocumentReads(n: nat)
    ensures (forall i | 0 <= i < |Document(n)| :: Document(n)[i] < 128)
    ensures Text(Document(n)) == "{\"o\":" + Text(Decimal(n)) + "}"
    ensures ValueOf(Decimal(n)) == n
  {
    hide Text, Decimal, ValueOf;
    DecimalRoundTrip(n);
    Brackets();
    assert (forall i | 0 <= i < |OPENING| :: OPENING[i] < 128) && CLOSING[0] < 128;
    TextAppends(OPENING, Decimal(n));
    TextAppends(OPENING + Decimal(n), CLOSING);
  }

  /** What a cursor comes to; `OtherDocument` is a document this model does not parse. */
  datatype Decoded = Offset(value: nat) | Invalid | OtherDocument

  /** `json.loads` on documents of the written shape, and the bound that follows it. */
  function ReadDocument(bytes: seq<nat>): Decoded {
    var body := |bytes| - 6;
    if body < 1 || bytes[..5] != OPENING || bytes[|bytes| - 1..] != CLOSING then OtherDocument
    else
      var d := bytes[5..|bytes| - 1];
      if !Digits(d) || (|d| > 1 && d[0] == 48) then OtherDocument
      else if ValueOf(d) > MAX_OFFSET then Invalid
      else Offset(ValueOf(d))
  }

  lemma DocumentRoundTrip(n: nat)
    ensures ReadDocument(Document(n)) == if n > MAX_OFFSET then Invalid else Offset(n)
  {
    var bytes, d := Document(n), Decimal(n);
    assert bytes[..5] == OPENING;
    assert bytes[|bytes| - 1..] == CLOSING;
    assert bytes[5..|bytes| - 1] == d;
    DecimalRoundTrip(n);
  }

  // ------------------------------------------------------------------ cursors

  /** `encode_cursor`. */
  function EncodeCursor(offset: nat): string {
    Encode64(Document(offset))
  }

  predicate Ascii(s: string) {
    forall i | 0 <= i < |s| :: s[i] as nat < 128
  }

  /** `decode_cursor`. */
  function DecodeCursor(cursor: Option<string>): Decoded {
    if cursor.None? || cursor.value == "" then Offset(0)
    else if |cursor.value| > MAX_CURSOR || !Ascii(cursor.value) then Invalid
    else
      match Decode64(cursor.value + Padding(|cursor.value|))
      case None => Invalid
      case Some(bytes) => ReadDocument(bytes)
  }

  lemma CharsAreAscii(s: nat)
    requires s < 64
    ensures CharOf(s) as nat < 128
  {
  }

  lemma {:induction false} EncodedIsAscii(bytes: seq<nat>)
    requires Bytes(bytes)
    ensures Ascii(Encode64(bytes))
  {
    var s := Encode64(bytes);
    forall k: nat | k < 64 ensures CharOf(k) as nat < 128 { CharsAreAscii(k); }
    if |bytes| >= 3 {
      EncodedIsAscii(bytes[3..]);
      assert s[4..] == Encode64(bytes[3..]);
      assert forall i | 4 <= i < |s| :: s[i] == s[4..][i - 4];
    }
  }

  /** The cursor of any offset up to the bound decodes to it; any other is refused. */
  lemma CursorRoundTripIff(n: nat)
    ensures DecodeCursor(Some(EncodeCursor(n))) == if n <= 10_000_000 then Offset(n) else Invalid
  {
    var bytes := Document(n);
    Base64RoundTrip(bytes);
    DocumentRoundTrip(n);
    EncodedIsAscii(bytes);
    if n <= MAX_OFFSET {
      assert PowerOfTen(8) == 100_000_000 by {
        assert PowerOfTen(4) == 10_000;
      }
      DecimalSize(n, 8, PowerOfTen(8));
    }
  }

  // ------------------------------------------------------------------ pages

  /** `clamp_limit`. */
  function ClampLimit(limit: Option<int>): (size: nat)
    ensures 1 <= size <= 200
    ensures limit.Some? && 1 <= limit.value <= 200 ==> size == limit.value
    ensures limit.None? || limit.value == 0 ==> size == 50
    ensures limit.Some? && limit.value < 0 ==> size == 1
    ensures limit.Some? && limit.value > 200 ==> size == 200
  {
    if limit.None? || limit.value == 0 then DEFAULT_LIMIT
    else if limit.value < 1 then 1
    else if limit.value > MAX_LIMIT then MAX_LIMIT else limit.value
  }

  datatype Page<T> = Page(data: seq<T>, hasMore: bool, nextCursor: Option<string>) | Refused

  function Slice<T>(list: seq<T>, start: nat, end: nat): seq<T> {
    if start >= |list| || end <= start then [] else if end > |list| then list[start..] else list[start..end]
  }

  /** The rows from an offset on, one past the limit fetched to see whether there are more. */
  function PageAt<T>(list: seq<T>, size: nat, offset: nat): Page<T>
    requires size > 0
  {
    var window := Slice(list, offset, offset + size + 1);
    var hasMore := |window| > size;
    Page(if hasMore then window[..size] else window, hasMore, if hasMore then Some(EncodeCursor(offset + size)) else None)
  }

  /** `paginate`. */
  function Paginate<T>(list: seq<T>, limit: Option<int>, cursor: Option<string>): Page<T> {
    match DecodeCursor(cursor)
    case Offset(offset) => PageAt(list, ClampLimit(limit), offset)
    case _ => Refused
  }

  lemma PageAtFacts<T>(list: seq<T>, size: nat, offset: nat)
    requires size > 0
    ensures var page := PageAt(list, size, offset);
            && page.Page? && page.hasMore == (offset + size < |list|)
            && (offset <= |list| ==> page.data == list[offset..if page.hasMore then offset + size else |list|])
            && page.nextCursor == if page.hasMore then Some(EncodeCursor(offset + size)) else None
  {
  }

  /**
   A page holds the next stretch of the list, says there is more exactly when there is, and
   its `next_cursor` names the next offset, or is refused when that is past the bound.
   */
  lemma PageIsTheNextStretch<T>(list: seq<T>, limit: Option<int>, cursor: Option<string>, offset: nat)
    requires DecodeCursor(cursor) == Offset(offset) && offset <= |list|
    ensures var page, size := Paginate(list, limit, cursor), ClampLimit(limit);
            && page.Page? && page.hasMore == (offset + size < |list|)
            && page.data == list[offset..if page.hasMore then offset + size else |list|]
            && (page.nextCursor.Some? <==> page.hasMore)
            && (page.hasMore ==> DecodeCursor(page.nextCursor) ==
                                 if offset + size <= MAX_OFFSET then Offset(offset + size) else Invalid)
  {
    hide EncodeCursor, DecodeCursor, PageAt;
    PageAtFacts(list, ClampLimit(limit), offset);
    CursorRoundTripIff(offset + ClampLimit(limit));
  }

  /** The rows a cursor still has ahead of it. */
  function Remaining<T>(list: seq<T>, cursor: Option<string>): nat {
    match DecodeCursor(cursor)
    case Offset(offset) => if offset <= |list| then |list| - offset else 0
    case _ => 0
  }

  lemma RemainingAt<T>(list: seq<T>, offset: nat)
    ensures Remaining(list, Some(EncodeCursor(offset))) ==
            if offset <= MAX_OFFSET && offset <= |list| then |list| - offset else 0
  {
    hide EncodeCursor, DecodeCursor;
    CursorRoundTripIff(offset);
  }

  lemma NextIsShorter<T>(list: seq<T>, limit: Option<int>, cursor: Option<string>)
    ensures var page := Paginate(list, limit, cursor);
            page.Page? && page.nextCursor.Some? ==> Remaining(list, page.nextCursor) < Remaining(list, cursor)
  {
    hide EncodeCursor, DecodeCursor, PageAt;
    var read, size := DecodeCursor(cursor), ClampLimit(limit);
    if read.Offset? {
      PageAtFacts(list, size, read.value);
      RemainingAt(list, read.value + size);
    }
  }

  /** The pages from a cursor on, following `next_cursor`, each request with a limit of its own; `None` once one is refused. */
  function PagesFrom<T>(list: seq<T>, limits: nat -> Option<int>, request: nat, cursor: Option<string>): Option<seq<seq<T>>>
    decreases Remaining(list, cursor)
  {
    var page := Paginate(list, limits(request), cursor);
    if page.Refused? then None
    else if page.nextCursor.None? then Some([page.data])
    else
      NextIsShorter(list, limits(request), cursor);
      var rest := PagesFrom(list, limits, request + 1, page.nextCursor);
      if rest.None? then None else Some([page.data] + rest.value)
  }

  function Concat<T>(pages: seq<seq<T>>): seq<T> {
    if pages == [] then [] else pages[0] + Concat(pages[1..])
  }

  /** The first page of a walk, and what follows it. */
  lemma WalkUnfolds<T>(list: seq<T>, limits: nat -> Option<int>, request: nat, cursor: Option<string>, offset: nat)
    requires DecodeCursor(cursor) == Offset(offset) && offset <= |list|
    ensures var next := offset + ClampLimit(limits(request));
            PagesFrom(list, limits, request, cursor) ==
            if next >= |list| then Some([list[offset..]])
            else
              var rest := PagesFrom(list, limits, request + 1, Some(EncodeCursor(next)));
              if rest.None? then None else Some([list[offset..next]] + rest.value)
  {
    hide EncodeCursor, DecodeCursor, PageAt;
    PageAtFacts(list, ClampLimit(limits(request)), offset);
    assert list[offset..|list|] == list[offset..];
  }

  lemma RefusedWalk<T>(list: seq<T>, limits: nat -> Option<int>, request: nat, cursor: Option<string>)
    requires !DecodeCursor(cursor).Offset?
    ensures PagesFrom(list, limits, request, cursor) == None
  {
  }

  lemma ConcatCons<T>(first: seq<T>, rest: seq<seq<T>>)
    ensures Concat([first] + rest) == first + Concat(rest)
  {
    assert ([first] + rest)[1..] == rest;
  }

  lemma {:induction false} WalkCovers<T>(list: seq<T>, limits: nat -> Option<int>, request: nat, cursor: Option<string>, offset: nat)
    requires DecodeCursor(cursor) == Offset(offset) && offset <= |list| <= MAX_OFFSET + 1
    ensures var pages := PagesFrom(list, limits, request, cursor);
            pages.Some? && Concat(pages.value) == list[offset..]
    decreases |list| - offset
  {
    hide EncodeCursor, DecodeCursor, PagesFrom;
    WalkUnfolds(list, limits, request, cursor, offset);
    var next := offset + ClampLimit(limits(request));
    if next >= |list| {
      ConcatCons(list[offset..], []);
      assert [list[offset..]] + [] == [list[offset..]];
    } else {
      CursorRoundTripIff(next);
      WalkCovers(list, limits, request + 1, Some(EncodeCursor(next)), next);
      ConcatCons(list[offset..next], PagesFrom(list, limits, request + 1, Some(EncodeCursor(next))).value);
      assert list[offset..next] + list[next..] == list[offset..];
    }
  }

  /**
   A page walk covers the list. Over any fixed list within the bound, whatever limit each
   request asks for, following `next_cursor` ends, and the pages put together are the list.
   */
  lemma PagesConcatenate<T>(list: seq<T>, limits: nat -> Option<int>)
    requires |list| <= MAX_OFFSET + 1
    ensures var pages := PagesFrom(list, limits, 0, None); pages.Some? && Concat(pages.value) == list
  {
    WalkCovers(list, limits, 0, None, 0);
  }

  lemma {:induction false} OneByOneIsRefused<T>(list: seq<T>, ones: nat -> Option<int>, request: nat, cursor: Option<string>, offset: nat)
    requires forall r :: ones(r) == Some(1)
    requires DecodeCursor(cursor) == Offset(offset) && offset <= MAX_OFFSET && |list| > MAX_OFFSET + 1
    ensures PagesFrom(list, ones, request, cursor) == None
    decreases MAX_OFFSET - offset
  {
    hide EncodeCursor, DecodeCursor, PagesFrom;
    WalkUnfolds(list, ones, request, cursor, offset);
    CursorRoundTripIff(offset + 1);
    if offset == MAX_OFFSET {
      RefusedWalk(list, ones, request + 1, Some(EncodeCursor(offset + 1)));
    } else {
      OneByOneIsRefused(list, ones, request + 1, Some(EncodeCursor(offset + 1)), offset + 1);
    }
  }

  /** The bound is exact: every walk completes exactly over the lists no longer than one past `MAX_OFFSET`. */
  lemma EveryWalkCompletesIff<T>(list: seq<T>)
    ensures (forall limits: nat -> Option<int> :: PagesFrom(list, limits, 0, None).Some?) <==> |list| <= MAX_OFFSET + 1
  {
    if |list| <= MAX_OFFSET + 1 {
      forall limits: nat -> Option<int> ensures PagesFrom(list, limits, 0, None).Some? {
        PagesConcatenate(list, limits);
      }
    } else {
      var ones: nat -> Option<int> := (r: nat) => Some(1);
      OneByOneIsRefused(list, ones, 0, None, 0);
    }
  }
}
