/** The 256-byte Mega Drive ROM header that `RomHeader.emitbuffer` writes
    (src/rom_header_editor.js): its fields, their byte layout, reading the
    fields back, and the editor object that emits the bytes. */
module RomHeaderEditor {
  import opened Js
  import opened FixedStrings

  const HEADER_SIZE: nat := 256

  /** An element of the `Uint8ClampedArray` the header is written through. */
  newtype Byte = b: int | 0 <= b < 0x100

  /** The values a `RomHeader` holds, as one value. */
  datatype HeaderFields = HeaderFields(
    console: FixedLengthString,
    copyright: FixedLengthString,
    titleLocal: FixedLengthString,
    titleInt: FixedLengthString,
    serial: FixedLengthString,
    checksum: int,
    ioSupport: FixedLengthString,
    romStart: int,
    romEnd: int,
    ramStart: int,
    ramEnd: int,
    haveSram: bool,
    sramType: int,
    sramStart: int,
    sramEnd: int,
    modemSupport: FixedLengthString,
    notes: FixedLengthString,
    region: FixedLengthString)

  /** The values the `RomHeader` constructor assigns; `year` stands for
      `new Date().getFullYear()`. */
  function DefaultFields(year: int): (h: HeaderFields)
    ensures DeclaredWidths(h)
  {
    HeaderFields(
      console := NewFixedLengthString(16, "SEGA MEGA DRIVE", ""),
      copyright := NewFixedLengthString(16, "(C)SOMETEAM " + NumberToString(year), ""),
      titleLocal := NewFixedLengthString(48, "SAMPLE GAME", ""),
      titleInt := NewFixedLengthString(48, "SAMPLE GAME", ""),
      serial := NewFixedLengthString(14, "GM 00000000-00", ""),
      checksum := 0,
      ioSupport := NewFixedLengthString(16, "JD", ""),
      romStart := 0,
      romEnd := 0x100000,
      ramStart := 0xff0000,
      ramEnd := 0xffffff,
      haveSram := false,
      sramType := 0,
      sramStart := 0x200000,
      sramEnd := 0x2001ff,
      modemSupport := NewFixedLengthString(12, "", ""),
      notes := NewFixedLengthString(40, "WRITE YOUR NOTES HERE", ""),
      region := NewFixedLengthString(16, "JUE", ""))
  }

  /** Each text field is declared with the width the matching loop of
      `emitbuffer` writes, and is padded with spaces. */
  predicate DeclaredWidths(h: HeaderFields)
  {
    && h.console.length == 16 && h.copyright.length == 16
    && h.titleLocal.length == 48 && h.titleInt.length == 48
    && h.serial.length == 14 && h.ioSupport.length == 16
    && h.modemSupport.length == 12 && h.notes.length == 40 && h.region.length == 16
    && h.console.pad == h.copyright.pad == h.titleLocal.pad == h.titleInt.pad == h.serial.pad == " "
    && h.ioSupport.pad == h.modemSupport.pad == h.notes.pad == h.region.pad == " "
  }

  /** Storing a character code into a `Uint8ClampedArray`: codes above 255
      saturate at 255. */
  function ClampByte(code: nat): (b: Byte)
    ensures code < 0x100 ==> b as int == code
    ensures 0x100 <= code ==> b == 0xFF
  {
    if code > 255 then 255 else code as Byte
  }

  /** `bv[offset + i] = field.charCodeAt(i)`. */
  function TextByte(f: FixedLengthString, i: nat): (b: Byte)
    ensures f.CharCodeAt(i) < 0x100 ==> b as int == f.CharCodeAt(i)
    ensures 0x100 <= f.CharCodeAt(i) ==> b == 0xFF
  {
    ClampByte(f.CharCodeAt(i))
  }

  /** The bytes one of the `for` loops of `emitbuffer` writes for a text
      field of the given width. */
  function TextBytes(f: FixedLengthString, width: nat): (b: seq<Byte>)
    ensures |b| == width
  {
    seq(width, i requires 0 <= i < width => TextByte(f, i))
  }

  /** `(x >> shift) & 0xff` on an integral Number: `>>` converts with
      ToInt32 and shifts arithmetically (a floor division), `& 0xff` keeps
      the low eight bits. */
  function ShiftMask(x: int, shift: nat): Byte
    requires shift < 32
  {
    ((ToInt32(x) / Pow2(shift)) % 0x100) as Byte
  }

  /** A memory bound as `emitbuffer` writes it: four bytes, most
      significant first. */
  function BigEndian32(x: int): (b: seq<Byte>)
    ensures |b| == 4
  {
    [ShiftMask(x, 24), ShiftMask(x, 16), ShiftMask(x, 8), ShiftMask(x, 0)]
  }

  /** The SRAM type as `emitbuffer` writes it: two bytes, most significant
      first. */
  function BigEndian16(x: int): (b: seq<Byte>)
    ensures |b| == 2
  {
    [ShiftMask(x, 8), ShiftMask(x, 0)]
  }

  /** `'RA'` when the cartridge has SRAM, two spaces otherwise. */
  function SramSignature(haveSram: bool): (b: seq<Byte>)
    ensures |b| == 2
    ensures BytesToText(b) == if haveSram then "RA" else "  "
  {
    if haveSram then [0x52, 0x41] else [0x20, 0x20]
  }

  /** The header image, field after field in address order. The checksum
      slot is left zero whatever `checksum` holds. */
  function Encode(h: HeaderFields): (image: seq<Byte>)
    ensures |image| == HEADER_SIZE
  {
    TextBytes(h.console, 16) + TextBytes(h.copyright, 16)
    + TextBytes(h.titleLocal, 48) + TextBytes(h.titleInt, 48)
    + TextBytes(h.serial, 14) + [0, 0] + TextBytes(h.ioSupport, 16)
    + BigEndian32(h.romStart) + BigEndian32(h.romEnd)
    + BigEndian32(h.ramStart) + BigEndian32(h.ramEnd)
    + SramSignature(h.haveSram) + BigEndian16(h.sramType)
    + BigEndian32(h.sramStart) + BigEndian32(h.sramEnd)
    + TextBytes(h.modemSupport, 12) + TextBytes(h.notes, 40) + TextBytes(h.region, 16)
  }

  /** The fields tile the 256 bytes: each sits at its fixed offset and
      width, with no gap and no overlap. */
  lemma FieldOffsets(h: HeaderFields)
    ensures var image := Encode(h);
            && |image| == HEADER_SIZE
            && image[0..16] == TextBytes(h.console, 16)
            && image[16..32] == TextBytes(h.copyright, 16)
            && image[32..80] == TextBytes(h.titleLocal, 48)
            && image[80..128] == TextBytes(h.titleInt, 48)
            && image[128..142] == TextBytes(h.serial, 14)
            && image[142..144] == [0, 0]
            && image[144..160] == TextBytes(h.ioSupport, 16)
            && image[160..164] == BigEndian32(h.romStart)
            && image[164..168] == BigEndian32(h.romEnd)
            && image[168..172] == BigEndian32(h.ramStart)
            && image[172..176] == BigEndian32(h.ramEnd)
            && image[176..178] == SramSignature(h.haveSram)
            && image[178..180] == BigEndian16(h.sramType)
            && image[180..184] == BigEndian32(h.sramStart)
            && image[184..188] == BigEndian32(h.sramEnd)
            && image[188..200] == TextBytes(h.modemSupport, 12)
            && image[200..240] == TextBytes(h.notes, 40)
            && image[240..256] == TextBytes(h.region, 16)
  {
    // Peeling one field at a time off the end keeps each step small.
    var image := Encode(h);
    var prefix1: seq<Byte> := TextBytes(h.console, 16);
    var prefix2 := prefix1 + TextBytes(h.copyright, 16);
    var prefix3 := prefix2 + TextBytes(h.titleLocal, 48);
    var prefix4 := prefix3 + TextBytes(h.titleInt, 48);
    var prefix5 := prefix4 + TextBytes(h.serial, 14);
    var prefix6 := prefix5 + [0, 0];
    var prefix7 := prefix6 + TextBytes(h.ioSupport, 16);
    var prefix8 := prefix7 + BigEndian32(h.romStart);
    var prefix9 := prefix8 + BigEndian32(h.romEnd);
    var prefix10 := prefix9 + BigEndian32(h.ramStart);
    var prefix11 := prefix10 + BigEndian32(h.ramEnd);
    var prefix12 := prefix11 + SramSignature(h.haveSram);
    var prefix13 := prefix12 + BigEndian16(h.sramType);
    var prefix14 := prefix13 + BigEndian32(h.sramStart);
    var prefix15 := prefix14 + BigEndian32(h.sramEnd);
    var prefix16 := prefix15 + TextBytes(h.modemSupport, 12);
    var prefix17 := prefix16 + TextBytes(h.notes, 40);
    var prefix18 := prefix17 + TextBytes(h.region, 16);
    assert image == prefix18;
    Peel(image, prefix17, TextBytes(h.region, 16));
    Peel(image, prefix16, TextBytes(h.notes, 40));
    Peel(image, prefix15, TextBytes(h.modemSupport, 12));
    Peel(image, prefix14, BigEndian32(h.sramEnd));
    Peel(image, prefix13, BigEndian32(h.sramStart));
    Peel(image, prefix12, BigEndian16(h.sramType));
    Peel(image, prefix11, SramSignature(h.haveSram));
    Peel(image, prefix10, BigEndian32(h.ramEnd));
    Peel(image, prefix9, BigEndian32(h.ramStart));
    Peel(image, prefix8, BigEndian32(h.romEnd));
    Peel(image, prefix7, BigEndian32(h.romStart));
    Peel(image, prefix6, TextBytes(h.ioSupport, 16));
    Peel(image, prefix5, [0, 0]);
    Peel(image, prefix4, TextBytes(h.serial, 14));
    Peel(image, prefix3, TextBytes(h.titleInt, 48));
    Peel(image, prefix2, TextBytes(h.titleLocal, 48));
    Peel(image, prefix1, TextBytes(h.copyright, 16));
  }

  lemma Peel(image: seq<Byte>, front: seq<Byte>, piece: seq<Byte>)
    requires |front| + |piece| <= |image|
    requires image[..|front| + |piece|] == front + piece
    ensures image[..|front|] == front
    ensures image[|front|..|front| + |piece|] == piece
  {
    assert image[..|front|] == (front + piece)[..|front|];
    assert image[|front|..|front| + |piece|] == (front + piece)[|front|..];
  }

  /** Reading `(x >> shift) & 0xff` as an unsigned byte lane: the ToInt32
      wrap-around does not change any of the four bytes of `x mod 2^32`. */
  lemma ShiftMaskUnsigned(x: int, shift: nat)
    requires shift == 0 || shift == 8 || shift == 16 || shift == 24
    ensures ShiftMask(x, shift) as int == ((x % TWO_TO_32) / Pow2(shift)) % 0x100
  {
    Pow2Bytes();
    var u := x % TWO_TO_32;
    var v := ToInt32(x);
    var d := Pow2(shift);
    if v != u {
      var k := TWO_TO_32 / d;
      assert k * d == TWO_TO_32;
      assert v == u + (-k) * d;
      DivModAddMultiple(u, -k, d);
      var j := k / 0x100;
      assert j * 0x100 == k;
      DivModAddMultiple(u / d, -j, 0x100);
    }
  }

  /** `(b0 << 24) | (b1 << 16) | (b2 << 8) | b3` read as an unsigned
      number. */
  function Word32(b: seq<Byte>): nat
    requires |b| == 4
  {
    b[0] as nat * 0x100_0000 + b[1] as nat * 0x1_0000 + b[2] as nat * 0x100 + b[3] as nat
  }

  /** `(b0 << 8) | b1`. */
  function Word16(b: seq<Byte>): nat
    requires |b| == 2
  {
    b[0] as nat * 0x100 + b[1] as nat
  }

  /** The four bytes written for a memory bound give back the bound modulo
      2^32. */
  lemma {:induction false} BigEndian32RoundTrip(x: int)
    ensures Word32(BigEndian32(x)) == x % TWO_TO_32
  {
    ShiftMaskUnsigned(x, 0);
    ShiftMaskUnsigned(x, 8);
    ShiftMaskUnsigned(x, 16);
    ShiftMaskUnsigned(x, 24);
    Pow2Bytes();
    BytesOfWord(x % TWO_TO_32);
  }

  /** A 32-bit number is the sum of its four bytes at their weights. */
  lemma BytesOfWord(u: int)
    requires 0 <= u < TWO_TO_32
    ensures ((u / 0x100_0000) % 0x100) * 0x100_0000 + ((u / 0x1_0000) % 0x100) * 0x1_0000
            + ((u / 0x100) % 0x100) * 0x100 + u % 0x100 == u
  {
    var q1 := u / 0x100;
    var q2 := q1 / 0x100;
    var q3 := q2 / 0x100;
    assert u == q1 * 0x100 + u % 0x100;
    assert q1 == q2 * 0x100 + q1 % 0x100;
    assert q2 == q3 * 0x100 + q2 % 0x100;
    var t2 := (q1 % 0x100) * 0x100 + u % 0x100;
    assert 0 <= t2 < 0x1_0000;
    assert u == t2 + q2 * 0x1_0000;
    DivModAddMultiple(t2, q2, 0x1_0000);
    assert u / 0x1_0000 == q2;
    var t3 := (q2 % 0x100) * 0x1_0000 + t2;
    assert 0 <= t3 < 0x100_0000;
    assert u == t3 + q3 * 0x100_0000;
    DivModAddMultiple(t3, q3, 0x100_0000);
    assert u / 0x100_0000 == q3 < 0x100;
  }

  /** The two bytes written for the SRAM type give back the type modulo
      2^16. */
  lemma {:induction false} BigEndian16RoundTrip(x: int)
    ensures Word16(BigEndian16(x)) == x % 0x1_0000
  {
    ShiftMaskUnsigned(x, 0);
    ShiftMaskUnsigned(x, 8);
    Pow2Bytes();
    var u := x % TWO_TO_32;
    assert u == (u / 0x100) * 0x100 + u % 0x100;
    assert u / 0x100 == (u / 0x1_0000) * 0x100 + (u / 0x100) % 0x100;
    DivModAddMultiple(u % 0x1_0000, u / 0x1_0000, 0x1_0000);
    DivModAddMultiple(x % 0x1_0000, x / 0x1_0000 - (x / TWO_TO_32) * 0x1_0000, 0x1_0000);
  }

  /** Bytes read back as text, one Latin-1 character per byte. */
  function BytesToText(b: seq<Byte>): (s: string)
    ensures |s| == |b|
  {
    seq(|b|, i requires 0 <= i < |b| => (b[i] as int) as char)
  }

  /** The header fields as a reader finds them in the 256 bytes. */
  datatype HeaderImage = HeaderImage(
    console: string,
    copyright: string,
    titleLocal: string,
    titleInt: string,
    serial: string,
    checksum: nat,
    ioSupport: string,
    romStart: nat,
    romEnd: nat,
    ramStart: nat,
    ramEnd: nat,
    sramSignature: string,
    sramType: nat,
    sramStart: nat,
    sramEnd: nat,
    modemSupport: string,
    notes: string,
    region: string)

  /** Read every field back from its offset and width. */
  function Decode(image: seq<Byte>): HeaderImage
    requires |image| == HEADER_SIZE
  {
    HeaderImage(
      console := BytesToText(image[0..16]),
      copyright := BytesToText(image[16..32]),
      titleLocal := BytesToText(image[32..80]),
      titleInt := BytesToText(image[80..128]),
      serial := BytesToText(image[128..142]),
      checksum := Word16(image[142..144]),
      ioSupport := BytesToText(image[144..160]),
      romStart := Word32(image[160..164]),
      romEnd := Word32(image[164..168]),
      ramStart := Word32(image[168..172]),
      ramEnd := Word32(image[172..176]),
      sramSignature := BytesToText(image[176..178]),
      sramType := Word16(image[178..180]),
      sramStart := Word32(image[180..184]),
      sramEnd := Word32(image[184..188]),
      modemSupport := BytesToText(image[188..200]),
      notes := BytesToText(image[200..240]),
      region := BytesToText(image[240..256]))
  }

  /** What the header is meant to record for each field: the text cut or
      space-padded to the field's width, the numbers modulo their width,
      a zero checksum, and the SRAM signature chosen by `haveSram`. */
  function Stored(h: HeaderFields): HeaderImage
  {
    HeaderImage(
      console := TrimPadString(h.console.str, 16, h.console.pad[..1]),
      copyright := TrimPadString(h.copyright.str, 16, h.copyright.pad[..1]),
      titleLocal := TrimPadString(h.titleLocal.str, 48, h.titleLocal.pad[..1]),
      titleInt := TrimPadString(h.titleInt.str, 48, h.titleInt.pad[..1]),
      serial := TrimPadString(h.serial.str, 14, h.serial.pad[..1]),
      checksum := 0,
      ioSupport := TrimPadString(h.ioSupport.str, 16, h.ioSupport.pad[..1]),
      romStart := h.romStart % TWO_TO_32,
      romEnd := h.romEnd % TWO_TO_32,
      ramStart := h.ramStart % TWO_TO_32,
      ramEnd := h.ramEnd % TWO_TO_32,
      sramSignature := if h.haveSram then "RA" else "  ",
      sramType := h.sramType % 0x1_0000,
      sramStart := h.sramStart % TWO_TO_32,
      sramEnd := h.sramEnd % TWO_TO_32,
      modemSupport := TrimPadString(h.modemSupport.str, 12, h.modemSupport.pad[..1]),
      notes := TrimPadString(h.notes.str, 40, h.notes.pad[..1]),
      region := TrimPadString(h.region.str, 16, h.region.pad[..1]))
  }

  /** Every character of the field and its pad fits in one byte, so that
      the clamping store keeps it. */
  predicate Latin1Text(f: FixedLengthString, width: nat)
  {
    && f.pad[0] as int < 0x100
    && forall i :: 0 <= i < |f.str| && i < width ==> f.str[i] as int < 0x100
  }

  predicate Latin1Header(h: HeaderFields)
  {
    && Latin1Text(h.console, 16) && Latin1Text(h.copyright, 16)
    && Latin1Text(h.titleLocal, 48) && Latin1Text(h.titleInt, 48)
    && Latin1Text(h.serial, 14) && Latin1Text(h.ioSupport, 16)
    && Latin1Text(h.modemSupport, 12) && Latin1Text(h.notes, 40) && Latin1Text(h.region, 16)
  }

  /** A text field read back is the string cut to the field width, or
      padded to it with the pad character. */
  lemma TextRoundTrip(f: FixedLengthString, width: nat)
    requires width < TWO_TO_31
    requires Latin1Text(f, width)
    ensures BytesToText(TextBytes(f, width)) == TrimPadString(f.str, width, f.pad[..1])
  {
    var r := TrimPadString(f.str, width, f.pad[..1]);
    forall i | 0 <= i < width
      ensures BytesToText(TextBytes(f, width))[i] == r[i]
    {
      assert f.CharCodeAt(i) == r[i] as nat;
    }
  }

  /** Reading the emitted header back yields what each field is meant to
      record. */
  lemma RoundTrip(h: HeaderFields)
    requires Latin1Header(h)
    ensures Decode(Encode(h)) == Stored(h)
  {
    FieldOffsets(h);
    TextRoundTrip(h.console, 16);
    TextRoundTrip(h.copyright, 16);
    TextRoundTrip(h.titleLocal, 48);
    TextRoundTrip(h.titleInt, 48);
    TextRoundTrip(h.serial, 14);
    TextRoundTrip(h.ioSupport, 16);
    TextRoundTrip(h.modemSupport, 12);
    TextRoundTrip(h.notes, 40);
    TextRoundTrip(h.region, 16);
    BigEndian32RoundTrip(h.romStart);
    BigEndian32RoundTrip(h.romEnd);
    BigEndian32RoundTrip(h.ramStart);
    BigEndian32RoundTrip(h.ramEnd);
    BigEndian32RoundTrip(h.sramStart);
    BigEndian32RoundTrip(h.sramEnd);
    BigEndian16RoundTrip(h.sramType);
    var image := Encode(h);
    assert BytesToText(image[176..178]) == (if h.haveSram then "RA" else "  ");
  }

  /** A freshly constructed header, read back, holds the constructor's
      texts space-padded to their widths and its memory map: cartridge ROM
      from 0 to 0x100000, work RAM 0xff0000-0xffffff, no SRAM signature,
      and the copyright line of a four-digit year filling its 16 bytes. */
  lemma DefaultHeaderImage(year: int)
    requires 1000 <= year < 10000
    ensures Decode(Encode(DefaultFields(year))) == DefaultImage(year)
  {
    DefaultsAreLatin1(year);
    RoundTrip(DefaultFields(year));
    DefaultStored(year);
  }

  /** The header image of a new `RomHeader`, field by field. */
  function DefaultImage(year: int): HeaderImage
  {
    HeaderImage(
      console := "SEGA MEGA DRIVE" + Spaces(1),
      copyright := "(C)SOMETEAM " + NumberToString(year),
      titleLocal := "SAMPLE GAME" + Spaces(37),
      titleInt := "SAMPLE GAME" + Spaces(37),
      serial := "GM 00000000-00",
      checksum := 0,
      ioSupport := "JD" + Spaces(14),
      romStart := 0,
      romEnd := 0x100000,
      ramStart := 0xff0000,
      ramEnd := 0xffffff,
      sramSignature := "  ",
      sramType := 0,
      sramStart := 0x200000,
      sramEnd := 0x2001ff,
      modemSupport := Spaces(12),
      notes := "WRITE YOUR NOTES HERE" + Spaces(19),
      region := "JUE" + Spaces(13))
  }

  lemma DefaultStored(year: int)
    requires 1000 <= year < 10000
    ensures Stored(DefaultFields(year)) == DefaultImage(year)
  {
    DefaultConsoleStored(year);
    DefaultCopyrightStored(year);
    DefaultTitlesStored(year);
    DefaultSerialStored(year);
    DefaultIoStored(year);
    DefaultModemStored(year);
    DefaultNotesStored(year);
    DefaultRegionStored(year);
  }

  lemma DefaultConsoleStored(year: int)
    ensures Stored(DefaultFields(year)).console == DefaultImage(year).console
  {
    SpacePadded("SEGA MEGA DRIVE", 16);
  }

  lemma DefaultCopyrightStored(year: int)
    requires 1000 <= year < 10000
    ensures Stored(DefaultFields(year)).copyright == DefaultImage(year).copyright
  {
    FourDigitYear(year);
    var c := "(C)SOMETEAM " + NumberToString(year);
    assert TrimPadString(c, 16, " ") == c[..16] == c;
  }

  lemma DefaultTitlesStored(year: int)
    ensures Stored(DefaultFields(year)).titleLocal == DefaultImage(year).titleLocal
    ensures Stored(DefaultFields(year)).titleInt == DefaultImage(year).titleInt
  {
    SpacePadded("SAMPLE GAME", 48);
  }

  lemma DefaultSerialStored(year: int)
    ensures Stored(DefaultFields(year)).serial == DefaultImage(year).serial
  {
    assert TrimPadString("GM 00000000-00", 14, " ") == "GM 00000000-00"[..14];
  }

  lemma DefaultIoStored(year: int)
    ensures Stored(DefaultFields(year)).ioSupport == DefaultImage(year).ioSupport
  {
    SpacePadded("JD", 16);
  }

  lemma DefaultModemStored(year: int)
    ensures Stored(DefaultFields(year)).modemSupport == DefaultImage(year).modemSupport
  {
    SpacePadded("", 12);
  }

  lemma DefaultNotesStored(year: int)
    ensures Stored(DefaultFields(year)).notes == DefaultImage(year).notes
  {
    SpacePadded("WRITE YOUR NOTES HERE", 40);
  }

  lemma DefaultRegionStored(year: int)
    ensures Stored(DefaultFields(year)).region == DefaultImage(year).region
  {
    SpacePadded("JUE", 16);
  }

  lemma DefaultsAreLatin1(year: int)
    ensures Latin1Header(DefaultFields(year))
  {
    DefaultCopyrightLatin1(year);
    DefaultFrontLatin1(year);
    DefaultBackLatin1(year);
  }

  lemma DefaultCopyrightLatin1(year: int)
    ensures Latin1Text(DefaultFields(year).copyright, 16)
  {
    var c := "(C)SOMETEAM " + NumberToString(year);
    forall i | 12 <= i < |c|
      ensures c[i] as int < 0x100
    {
      assert c[i] == NumberToString(year)[i - 12];
    }
  }

  lemma DefaultFrontLatin1(year: int)
    ensures var h := DefaultFields(year);
            && Latin1Text(h.console, 16) && Latin1Text(h.titleLocal, 48)
            && Latin1Text(h.titleInt, 48) && Latin1Text(h.serial, 14)
  {
  }

  lemma DefaultBackLatin1(year: int)
    ensures var h := DefaultFields(year);
            && Latin1Text(h.ioSupport, 16) && Latin1Text(h.modemSupport, 12)
            && Latin1Text(h.notes, 40) && Latin1Text(h.region, 16)
  {
  }

  function Spaces(n: nat): (r: string)
    ensures |r| == n && forall i :: 0 <= i < n ==> r[i] == ' '
  {
    seq(n, _ => ' ')
  }

  /** A string shorter than the width, padded with the default pad. */
  lemma SpacePadded(s: string, width: nat)
    requires |s| < width < TWO_TO_31
    ensures TrimPadString(s, width, " ") == s + Spaces(width - |s|)
  {
    var r := TrimPadString(s, width, " ");
    assert r[..|s|] == s;
    assert r == r[..|s|] + r[|s|..];
  }

  /** One `for` loop of `emitbuffer`: the bytes of a text field stored at
      `off`, extending the prefix of the buffer that already agrees with
      `image`. */
  method WriteText(buf: array<Byte>, off: nat, f: FixedLengthString, width: nat, ghost image: seq<Byte>)
    requires off + width <= buf.Length == |image|
    requires image[off..off + width] == TextBytes(f, width)
    requires forall k :: 0 <= k < off ==> buf[k] == image[k]
    modifies buf
    ensures forall k :: 0 <= k < off + width ==> buf[k] == image[k]
    ensures forall k :: off + width <= k < buf.Length ==> buf[k] == old(buf[k])
  {
    for i := 0 to width
      invariant forall k :: 0 <= k < off + i ==> buf[k] == image[k]
      invariant forall k :: off + width <= k < buf.Length ==> buf[k] == old(buf[k])
    {
      assert image[off..off + width][i] == TextByte(f, i);
      buf[off + i] := TextByte(f, i);
    }
  }

  /** Four stores of `(x >> s) & 0xff`, most significant byte first. */
  method WriteBigEndian32(buf: array<Byte>, off: nat, x: int, ghost image: seq<Byte>)
    requires off + 4 <= buf.Length == |image|
    requires image[off..off + 4] == BigEndian32(x)
    requires forall k :: 0 <= k < off ==> buf[k] == image[k]
    modifies buf
    ensures forall k :: 0 <= k < off + 4 ==> buf[k] == image[k]
    ensures forall k :: off + 4 <= k < buf.Length ==> buf[k] == old(buf[k])
  {
    buf[off] := ShiftMask(x, 24);
    buf[off + 1] := ShiftMask(x, 16);
    buf[off + 2] := ShiftMask(x, 8);
    buf[off + 3] := ShiftMask(x, 0);
    assert image[off..off + 4][3] == ShiftMask(x, 0);
  }

  /** Two single-byte stores at `off` and `off + 1`. */
  method WritePair(buf: array<Byte>, off: nat, b0: Byte, b1: Byte, ghost image: seq<Byte>)
    requires off + 2 <= buf.Length == |image|
    requires image[off..off + 2] == [b0, b1]
    requires forall k :: 0 <= k < off ==> buf[k] == image[k]
    modifies buf
    ensures forall k :: 0 <= k < off + 2 ==> buf[k] == image[k]
    ensures forall k :: off + 2 <= k < buf.Length ==> buf[k] == old(buf[k])
  {
    buf[off] := b0;
    buf[off + 1] := b1;
    assert image[off..off + 2][1] == b1;
  }

  /** The editor's header object. Its fields are public and assigned in
      place; `EmitBuffer` serialises whatever they currently hold. */
  class RomHeader {
    var console: FixedLengthString
    var copyright: FixedLengthString
    var titleLocal: FixedLengthString
    var titleInt: FixedLengthString
    var serial: FixedLengthString
    var checksum: int
    var ioSupport: FixedLengthString
    var romStart: int
    var romEnd: int
    var ramStart: int
    var ramEnd: int
    var haveSram: bool
    var sramType: int
    var sramStart: int
    var sramEnd: int
    var modemSupport: FixedLengthString
    var notes: FixedLengthString
    var region: FixedLengthString

    /** The current field values. */
    function Fields(): HeaderFields
      reads this
    {
      HeaderFields(console, copyright, titleLocal, titleInt, serial, checksum, ioSupport,
                   romStart, romEnd, ramStart, ramEnd, haveSram, sramType, sramStart, sramEnd,
                   modemSupport, notes, region)
    }

    /** `new RomHeader()`, with the year of the copyright line given by the
        caller instead of read from the clock. */
    constructor(year: int)
      ensures Fields() == DefaultFields(year)
    {
      console := NewFixedLengthString(16, "SEGA MEGA DRIVE", "");
      copyright := NewFixedLengthString(16, "(C)SOMETEAM " + NumberToString(year), "");
      titleLocal := NewFixedLengthString(48, "SAMPLE GAME", "");
      titleInt := NewFixedLengthString(48, "SAMPLE GAME", "");
      serial := NewFixedLengthString(14, "GM 00000000-00", "");
      checksum := 0;
      ioSupport := NewFixedLengthString(16, "JD", "");
      romStart := 0;
      romEnd := 0x100000;
      ramStart := 0xff0000;
      ramEnd := 0xffffff;
      haveSram := false;
      sramType := 0;
      sramStart := 0x200000;
      sramEnd := 0x2001ff;
      modemSupport := NewFixedLengthString(12, "", "");
      notes := NewFixedLengthString(40, "WRITE YOUR NOTES HERE", "");
      region := NewFixedLengthString(16, "JUE", "");
    }

    /** `emitbuffer()`: a fresh 256-byte buffer filled field by field; its
        bytes are exactly `Encode` of the current fields. */
    method EmitBuffer() returns (buf: array<Byte>)
      ensures fresh(buf)
      ensures buf.Length == HEADER_SIZE
      ensures buf[..] == Encode(Fields())
    {
      ghost var h := Fields();
      ghost var image := Encode(h);
      FieldOffsets(h);
      buf := new Byte[HEADER_SIZE](_ => 0);
      WriteText(buf, 0, console, 16, image);
      WriteText(buf, 16, copyright, 16, image);
      WriteText(buf, 32, titleLocal, 48, image);
      WriteText(buf, 80, titleInt, 48, image);
      WriteText(buf, 128, serial, 14, image);
      // the checksum slot stays zero until a later pass fills it in
      WritePair(buf, 142, 0, 0, image);
      WriteText(buf, 144, ioSupport, 16, image);
      WriteBigEndian32(buf, 160, romStart, image);
      WriteBigEndian32(buf, 164, romEnd, image);
      WriteBigEndian32(buf, 168, ramStart, image);
      WriteBigEndian32(buf, 172, ramEnd, image);
      if haveSram {
        WritePair(buf, 176, 0x52, 0x41, image);  // "RA"
      } else {
        WritePair(buf, 176, 0x20, 0x20, image);
      }
      WritePair(buf, 178, ShiftMask(sramType, 8), ShiftMask(sramType, 0), image);
      WriteBigEndian32(buf, 180, sramStart, image);
      WriteBigEndian32(buf, 184, sramEnd, image);
      WriteText(buf, 188, modemSupport, 12, image);
      WriteText(buf, 200, notes, 40, image);
      WriteText(buf, 240, region, 16, image);
      assert buf[..] == image;
    }
  }
}
