/**
 * The TruncateText helper the page templates call to shorten long texts.
 * Go strings are byte strings: `len` counts bytes and slicing cuts bytes,
 * so the model works on byte sequences.
 */
module Templates {
  import opened Wrappers

  newtype Byte = x: int | 0 <= x < 256

  /** UTF-8 encoding of a code point from the Basic Multilingual Plane. */
  function Utf8(cp: int): (bs: seq<Byte>)
    requires 0 <= cp < 0x1_0000
    ensures 1 <= |bs| <= 3
    ensures cp < 0x80 <==> |bs| == 1
    ensures |bs| == 3 <==> cp >= 0x800
  {
    if cp < 0x80 then [cp as Byte]
    else if cp < 0x800 then [(0xC0 + cp / 0x40) as Byte, (0x80 + cp % 0x40) as Byte]
    else [(0xE0 + cp / 0x1000) as Byte, (0x80 + (cp / 0x40) % 0x40) as Byte, (0x80 + cp % 0x40) as Byte]
  }

  /** "…" (U+2026 HORIZONTAL ELLIPSIS) as the Go sources of the earlier revision spell it. */
  const Ellipsis: seq<Byte> := [0xE2, 0x80, 0xA6]

  /** The suffix the current revision's source spells: the bytes C3 A2 E2 82 AC C2 A6. */
  const MisencodedEllipsis: seq<Byte> := [0xC3, 0xA2, 0xE2, 0x82, 0xAC, 0xC2, 0xA6]

  /** The earlier revision's suffix is the UTF-8 encoding of U+2026. */
  lemma EllipsisIsUtf8()
    ensures Ellipsis == Utf8(0x2026)
  {
  }

  /**
   * The current revision's suffix is the ellipsis's three bytes each read as
   * a Windows-1252 character (E2 as U+00E2 'â', 80 as U+20AC '€', A6 as
   * U+00A6 '¦') and encoded again as UTF-8: it renders as "â€¦".
   */
  lemma MisencodedEllipsisIsMojibake()
    ensures MisencodedEllipsis == Utf8(0xE2) + Utf8(0x20AC) + Utf8(0xA6)
    ensures MisencodedEllipsis != Ellipsis
  {
  }

  /**
   * TruncateText with a given suffix: a text of at most `length` bytes is
   * returned as it is, a longer one is cut to its first `length` bytes and
   * the suffix appended. A negative length makes the slice panic, which the
   * template engine reports as an execution error (None).
   */
  function TruncateWith(text: seq<Byte>, length: int, suffix: seq<Byte>): (r: Option<seq<Byte>>)
    ensures r.None? <==> length < 0
    ensures r.Some? && |text| <= length ==> r.value == text
    ensures r.Some? && length < |text| ==> |r.value| == length + |suffix| && r.value[..length] == text[..length]
                                           && r.value[length..] == suffix
  {
    if |text| <= length then Some(text)
    else if length < 0 then None
    else Some(text[..length] + suffix)
  }

  /** TruncateText as the templates of the earlier revision have it. */
  function TruncateText(text: seq<Byte>, length: int): (r: Option<seq<Byte>>)
    ensures |text| <= length ==> r == Some(text)
    ensures 0 <= length < |text| ==> r == Some(text[..length] + Utf8(0x2026))
    ensures r.None? <==> length < 0
    ensures r.Some? ==> |r.value| <= if |text| <= length then |text| else length + 3
  {
    EllipsisIsUtf8();
    TruncateWith(text, length, Ellipsis)
  }

  /** TruncateText as the current revision's source writes it, with the misencoded suffix. */
  function TruncateTextAsWritten(text: seq<Byte>, length: int): (r: Option<seq<Byte>>)
    ensures |text| <= length ==> r == Some(text)
    ensures 0 <= length < |text| ==> r == Some(text[..length] + MisencodedEllipsis)
  {
    TruncateWith(text, length, MisencodedEllipsis)
  }

  /** Shortening a text in the current revision ends it in "â€¦" rather than in the ellipsis. */
  lemma {:induction false} TruncateTextAsWrittenShowsMojibake()
    ensures TruncateTextAsWritten([0x61, 0x62, 0x63], 1) == Some([0x61] + Utf8(0xE2) + Utf8(0x20AC) + Utf8(0xA6))
    ensures TruncateText([0x61, 0x62, 0x63], 1) == Some([0x61] + Utf8(0x2026))
  {
    var text: seq<Byte> := [0x61, 0x62, 0x63];
    assert text[..1] == [0x61];
    MisencodedEllipsisIsMojibake();
    EllipsisIsUtf8();
    assert [0x61] + MisencodedEllipsis == [0x61] + Utf8(0xE2) + Utf8(0x20AC) + Utf8(0xA6);
  }
}
