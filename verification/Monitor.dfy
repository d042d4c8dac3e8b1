/**
 * The boot monitor's side of `flash_firmware`: the text of the commands that are
 * sent to it, how it reads them, and the flash memory they act on.
 *
 * The flash is an abstraction: it takes writes into a latch of 64 words and
 * copies the latch into a page when the controller's command register is told
 * to.  The words of a page are lost from the latch once they are committed.
 */
module Monitor {
  import opened Wrappers

  const WORDS := 64
  const FLASH_BASE := 0x80000
  /** Addresses that reach the latch; the controller's registers lie above them. */
  const WINDOW := 0x40000000
  const COMMAND_REGISTER := 0x400E0804
  const STATUS_REGISTER := 0x400E0808
  const ERASED_WORD := 0xFFFFFFFF
  /** Room for characters in the command buffer; the last place holds the NUL. */
  const COMMAND_ROOM := 19

  // ---- Hexadecimal text ----

  function Pow16(k: nat): (r: nat)
    ensures r > 0
  {
    if k == 0 then 1 else 16 * Pow16(k - 1)
  }

  function Digit(d: nat): char
    requires d < 16
  {
    "0123456789ABCDEF"[d]
  }

  function Undigit(c: char): Option<nat> {
    if '0' <= c <= '9' then Some((c - '0') as nat)
    else if 'A' <= c <= 'F' then Some((c - 'A') as nat + 10)
    else None
  }

  /** `%.<width>X`: at least `width` digits, more when the number needs them. */
  function Hex(n: nat, width: nat): string
    decreases n, width
  {
    if n == 0 && width == 0 then ""
    else Hex(n / 16, if width == 0 then 0 else width - 1) + [Digit(n % 16)]
  }

  function Unhex(s: string): Option<nat> {
    if s == "" then Some(0)
    else
      var high := Unhex(s[..|s| - 1]);
      var low := Undigit(s[|s| - 1]);
      if high.None? || low.None? then None else Some(16 * high.value + low.value)
  }

  lemma DigitReads(d: nat)
    requires d < 16
    ensures Undigit(Digit(d)) == Some(d) && Digit(d) != '#'
  {
  }

  /** One more digit on the right. */
  lemma UnhexSnoc(s: string, c: char)
    requires Unhex(s).Some? && Undigit(c).Some?
    ensures Unhex(s + [c]) == Some(16 * Unhex(s).value + Undigit(c).value)
  {
    assert (s + [c])[..|s|] == s;
  }

  lemma {:induction false} UnhexHex(n: nat, width: nat)
    ensures Unhex(Hex(n, width)) == Some(n)
    decreases n, width
  {
    if n == 0 && width == 0 {
    } else {
      var w := if width == 0 then 0 else width - 1;
      UnhexHex(n / 16, w);
      DigitReads(n % 16);
      UnhexSnoc(Hex(n / 16, w), Digit(n % 16));
    }
  }

  /** The width is exact just when the number fits it. */
  lemma {:induction false} HexWidth(n: nat, width: nat)
    ensures |Hex(n, width)| >= width
    ensures |Hex(n, width)| == width <==> n < Pow16(width)
    decreases n, width
  {
    if n == 0 && width == 0 {
    } else {
      HexWidth(n / 16, if width == 0 then 0 else width - 1);
    }
  }

  /** A value moved up by `k` digits. */
  function Shifted(v: nat, k: nat): nat {
    if k == 0 then v else 16 * Shifted(v, k - 1)
  }

  lemma {:induction false} UnhexAppend(a: string, b: string)
    requires Unhex(a).Some? && Unhex(b).Some?
    ensures Unhex(a + b) == Some(Shifted(Unhex(a).value, |b|) + Unhex(b).value)
    decreases |b|
  {
    if b == "" {
      assert a + b == a;
    } else {
      var c := b[..|b| - 1];
      UnhexAppend(a, c);
      assert (a + b)[..|a + b| - 1] == a + c;
    }
  }

  // ---- The text of a command ----

  datatype Command =
    | Erase
    | Status
    | Word(address: nat, word: nat)
    | Commit(page: nat)
    | BootFromFlash
    | Go

  /** `snprintf` into the command buffer. */
  function Fitted(s: string): string {
    s[..Min(|s|, COMMAND_ROOM)]
  }

  function Text(c: Command): string {
    match c
    case Erase => "W400E0804,5A000005#"
    case Status => "w400E0808,4#"
    case Word(address, word) => Fitted("W" + Hex(address, 8) + "," + Hex(word, 8) + "#")
    case Commit(page) => Fitted("W400E0804,5A00" + Hex(page, 2) + "03#")
    case BootFromFlash => "W400E0804,5A00010B#"
    case Go => "G00000000#"
  }

  // ---- How it is read ----

  /** What the monitor takes as a word write: the address and the word. */
  function Decode(text: string): Option<(nat, nat)> {
    if |text| == 19 && text[0] == 'W' && text[9] == ',' && text[18] == '#' then
      var address := Unhex(text[1..9]);
      var word := Unhex(text[10..18]);
      if address.None? || word.None? then None else Some((address.value, word.value))
    else None
  }

  /** What it takes as a read of a register, four bytes wide. */
  function DecodeRead(text: string): Option<nat> {
    if |text| == 12 && text[0] == 'w' && text[9..] == ",4#" then Unhex(text[1..9]) else None
  }

  /** What it takes as a jump to an address. */
  function DecodeGo(text: string): Option<nat> {
    if |text| == 10 && text[0] == 'G' && text[9] == '#' then Unhex(text[1..9]) else None
  }

  /** The text that fits the buffer: the last character is lost when the data is too long. */
  lemma Kept(address: string, word: string)
    requires |address| == 8 && |word| >= 8
    ensures Fitted("W" + address + "," + word + "#")
            == (['W'] + address) + ([','] + word[..8]) + [if |word| == 8 then '#' else word[8]]
  {
  }

  lemma Parts(w: char, address: string, comma: char, word: string, last: char)
    requires |address| == |word| == 8
    ensures var text := ([w] + address) + ([comma] + word) + [last];
      && |text| == 19 && text[0] == w && text[9] == comma && text[18] == last
      && text[1..9] == address && text[10..18] == word
  {
    var text := ([w] + address) + ([comma] + word) + [last];
    assert forall k :: 0 <= k < 8 ==> text[1 + k] == address[k] && text[10 + k] == word[k];
  }

  lemma Layout(address: string, word: string)
    requires |address| == 8 && |word| >= 8
    ensures var text := Fitted("W" + address + "," + word + "#");
      && |text| == 19 && text[0] == 'W' && text[9] == ',' && text[1..9] == address && text[10..18] == word[..8]
      && text[18] == if |word| == 8 then '#' else word[8]
  {
    Kept(address, word);
    Parts('W', address, ',', word[..8], if |word| == 8 then '#' else word[8]);
  }

  /** Eight digits of data arrive as they were meant; more of them lose the terminator. */
  lemma WriteDecodes(address: string, word: string)
    requires |address| == 8 && Unhex(address).Some? && Unhex(word).Some? && '#' !in word
    ensures var text := Fitted("W" + address + "," + word + "#");
      && (|word| == 8 ==> Decode(text) == Some((Unhex(address).value, Unhex(word).value)))
      && (|word| > 8 ==> Decode(text) == None)
  {
    if |word| >= 8 {
      Layout(address, word);
      assert |word| == 8 ==> word[..8] == word;
    }
  }

  lemma Fits32(n: nat)
    ensures n < 0x1_0000_0000 <==> n < Pow16(8)
  {
    assert Pow16(4) == 65536;
    assert Pow16(8) == 16 * Pow16(7) == 256 * Pow16(6) == 4096 * Pow16(5) == 65536 * Pow16(4);
  }

  lemma HexEight(n: nat)
    requires n < 0x1_0000_0000
    ensures |Hex(n, 8)| == 8 && Unhex(Hex(n, 8)) == Some(n) && '#' !in Hex(n, 8)
  {
    Fits32(n);
    HexWidth(n, 8);
    UnhexHex(n, 8);
    HexHasNoHash(n, 8);
  }

  lemma WordDecodes(address: nat, word: nat)
    requires address < 0x1_0000_0000 && word < 0x1_0000_0000
    ensures Decode(Text(Word(address, word))) == Some((address, word))
  {
    HexEight(address);
    HexEight(word);
    WriteDecodes(Hex(address, 8), Hex(word, 8));
  }

  lemma {:induction false} HexHasNoHash(n: nat, width: nat)
    ensures '#' !in Hex(n, width)
    decreases n, width
  {
    if n == 0 && width == 0 {
    } else {
      HexHasNoHash(n / 16, if width == 0 then 0 else width - 1);
    }
  }

  lemma UnhexFour(s: string, d: seq<nat>)
    requires |s| == |d| == 4 && forall k :: 0 <= k < 4 ==> Undigit(s[k]) == Some(d[k])
    ensures Unhex(s) == Some(0x100 * (0x10 * d[0] + d[1]) + 0x10 * d[2] + d[3])
  {
    FourDigits(s[0], s[1], s[2], s[3]);
    assert s == [s[0], s[1], s[2], s[3]];
  }

  lemma FourDigits(a: char, b: char, c: char, d: char)
    requires Undigit(a).Some? && Undigit(b).Some? && Undigit(c).Some? && Undigit(d).Some?
    ensures Unhex([a, b, c, d]) == Some(0x100 * (0x10 * Undigit(a).value + Undigit(b).value)
      + 0x10 * Undigit(c).value + Undigit(d).value)
  {
    assert Unhex("") == Some(0) && "" + [a] == [a];
    UnhexSnoc("", a);
    assert [a] + [b] == [a, b];
    UnhexSnoc([a], b);
    assert [a, b] + [c] == [a, b, c];
    UnhexSnoc([a, b], c);
    assert [a, b, c] + [d] == [a, b, c, d];
    UnhexSnoc([a, b, c], d);
  }

  lemma UnhexNext(s: string, k: nat)
    requires k < |s| && Undigit(s[k]).Some?
    ensures s[..0] == "" && Unhex("") == Some(0)
    ensures Unhex(s[..k]).Some?
      ==> Unhex(s[..k + 1]) == Some(16 * Unhex(s[..k]).value + Undigit(s[k]).value)
  {
    assert s[..k + 1][..k] == s[..k];
  }

  lemma ShiftedBy(v: nat)
    ensures Shifted(v, 2) == 0x100 * v && Shifted(v, 4) == 0x10000 * v
  {
    assert Shifted(v, 1) == 16 * Shifted(v, 0) == 16 * v;
    assert Shifted(v, 2) == 16 * Shifted(v, 1);
    assert Shifted(v, 3) == 16 * Shifted(v, 2);
    assert Shifted(v, 4) == 16 * Shifted(v, 3);
  }

  lemma Register()
    ensures Unhex("400E0804") == Some(COMMAND_REGISTER)
  {
    UnhexFour("0804", [0, 8, 0, 4]);
    InController("0804");
    assert "400E" + "0804" == "400E0804";
  }

  /** The registers of the flash controller. */
  lemma InController(low: string)
    requires |low| == 4 && Unhex(low).Some?
    ensures Unhex("400E" + low) == Some(0x400E0000 + Unhex(low).value)
  {
    UnhexFour("400E", [4, 0, 0, 0xE]);
    UnhexAppend("400E", low);
    ShiftedBy(0x400E);
  }

  lemma StatusDecodes()
    ensures Decode(Text(Status)) == None && DecodeGo(Text(Status)) == None
    ensures DecodeRead(Text(Status)) == Some(STATUS_REGISTER)
  {
    UnhexFour("0808", [0, 8, 0, 8]);
    InController("0808");
    assert Text(Status)[1..9] == "400E" + "0808";
  }

  lemma GoDecodes()
    ensures Decode(Text(Go)) == None && DecodeGo(Text(Go)) == Some(0)
  {
    UnhexFour("0000", [0, 0, 0, 0]);
    UnhexAppend("0000", "0000");
    ShiftedBy(0);
    assert Text(Go)[1..9] == "0000" + "0000";
  }

  lemma Key()
    ensures Unhex("5A00") == Some(0x5A00) && '#' !in "5A00"
  {
    UnhexFour("5A00", [5, 0xA, 0, 0]);
  }

  lemma KeyedValue(key: string, low: string)
    requires |key| == 4 && Unhex(key) == Some(0x5A00) && '#' !in key && Unhex(low).Some? && '#' !in low
    ensures '#' !in key + low && |key + low| == 4 + |low| && Unhex(key + low).Some?
    ensures |low| == 4 ==> Unhex(key + low).value == 0x5A000000 + Unhex(low).value
  {
    UnhexAppend(key, low);
    ShiftedBy(0x5A00);
  }

  lemma KeyedDecodes(register: string, key: string, low: string)
    requires |register| == 8 && Unhex(register) == Some(COMMAND_REGISTER)
    requires |key| == 4 && Unhex(key) == Some(0x5A00) && '#' !in key
    requires Unhex(low).Some? && '#' !in low
    ensures var text := Fitted("W" + register + "," + (key + low) + "#");
      && (|low| == 4 ==> Decode(text) == Some((COMMAND_REGISTER, 0x5A000000 + Unhex(low).value)))
      && (|low| > 4 ==> Decode(text) == None)
  {
    KeyedValue(key, low);
    WriteDecodes(register, key + low);
  }

  lemma Spelling(low: string)
    ensures "W" + "400E0804" + "," + ("5A00" + low) + "#" == "W400E0804,5A00" + low + "#"
  {
  }

  /** A write to the command register, with the key and four more digits. */
  lemma KeyDecodes(low: string)
    requires Unhex(low).Some? && '#' !in low
    ensures var text := Fitted("W400E0804,5A00" + low + "#");
      && (|low| == 4 ==> Decode(text) == Some((COMMAND_REGISTER, 0x5A000000 + Unhex(low).value)))
      && (|low| > 4 ==> Decode(text) == None)
  {
    Register();
    Key();
    Spelling(low);
    KeyedDecodes("400E0804", "5A00", low);
  }

  lemma EraseDecodes()
    ensures Decode(Text(Erase)) == Some((COMMAND_REGISTER, 0x5A000005))
  {
    UnhexFour("0005", [0, 0, 0, 5]);
    KeyDecodes("0005");
    var s := "W400E0804,5A00" + "0005" + "#";
    assert Fitted(s) == s == Text(Erase);
  }

  lemma BootDecodes()
    ensures Decode(Text(BootFromFlash)) == Some((COMMAND_REGISTER, 0x5A00010B))
  {
    UnhexFour("010B", [0, 1, 0, 0xB]);
    KeyDecodes("010B");
    var s := "W400E0804,5A00" + "010B" + "#";
    assert Fitted(s) == s == Text(BootFromFlash);
  }

  lemma WriteAndErase()
    ensures Unhex("03") == Some(3)
  {
    UnhexNext("03", 0);
    UnhexNext("03", 1);
    assert "03"[..2] == "03";
  }

  lemma PageDigits(page: nat)
    ensures var low := Hex(page, 2) + "03";
      && Unhex(low) == Some(0x100 * page + 3) && '#' !in low
      && (|low| == 4 <==> page < 256) && |low| >= 4
  {
    assert Pow16(2) == 256;
    HexWidth(page, 2);
    UnhexHex(page, 2);
    HexHasNoHash(page, 2);
    WriteAndErase();
    UnhexAppend(Hex(page, 2), "03");
    ShiftedBy(page);
  }

  /** A page number of two digits gives the write-page command; a longer one gives none. */
  lemma CommitDecodes(page: nat)
    ensures Decode(Text(Commit(page)))
      == if page < 256 then Some((COMMAND_REGISTER, 0x5A000003 + 0x100 * page)) else None
  {
    var low := Hex(page, 2) + "03";
    PageDigits(page);
    KeyDecodes(low);
    assert "W400E0804,5A00" + low + "#" == "W400E0804,5A00" + Hex(page, 2) + "03#";
  }

  // ---- The flash ----

  /**
   * `pages` holds the committed ones, every other page is erased; `commits` lists
   * the page writes, `polls` counts the reads of the status register.  `boot` says
   * that the chip starts from its flash; once it was `started` the monitor is gone.
   */
  datatype Flash = Flash(
    latch: seq<nat>, pages: map<nat, seq<nat>>, commits: seq<nat>, polls: nat, boot: bool, started: Option<nat>)

  function Blank(): (w: seq<nat>)
    ensures |w| == WORDS
  {
    seq(WORDS, _ => ERASED_WORD)
  }

  function Latch(f: Flash, address: nat, word: nat): Flash {
    if |f.latch| == WORDS then f.(latch := f.latch[address / 4 % WORDS := word]) else f
  }

  function WritePage(f: Flash, page: nat): Flash {
    f.(latch := Blank(), pages := f.pages[page := f.latch], commits := f.commits + [page])
  }

  function EraseAll(f: Flash): Flash {
    f.(latch := Blank(), pages := map[])
  }

  /** A word written to an address of the flash or to the command register. */
  function Store(f: Flash, address: nat, word: nat): Flash {
    if FLASH_BASE <= address < FLASH_BASE + WINDOW && address % 4 == 0 then Latch(f, address, word)
    else if address != COMMAND_REGISTER || word / 0x1000000 != 0x5A then f
    else if word % 256 == 3 then WritePage(f, word / 256 % 0x10000)
    else if word % 256 == 5 then EraseAll(f)
    else if word % 256 == 0x0B && word / 256 % 0x10000 == 1 then f.(boot := true)
    else f
  }

  /** The text arrives at the monitor. */
  function Receive(f: Flash, text: string): Flash {
    var write := Decode(text);
    if f.started.Some? then f
    else if write.Some? then Store(f, write.value.0, write.value.1)
    else if DecodeGo(text).Some? then f.(started := DecodeGo(text))
    else if DecodeRead(text) == Some(STATUS_REGISTER) then f.(polls := f.polls + 1)
    else f
  }

  /** What a command is for. */
  function Effect(f: Flash, c: Command): Flash {
    if f.started.Some? then f
    else
      match c
      case Erase => EraseAll(f)
      case Status => f.(polls := f.polls + 1)
      case Word(address, word) => Latch(f, address, word)
      case Commit(page) => if page < 256 then WritePage(f, page) else f
      case BootFromFlash => f.(boot := true)
      case Go => f.(started := Some(0))
  }

  /** Word writes go to the flash, aligned, with 32 bits of data. */
  predicate Sound(c: Command) {
    c.Word? ==> FLASH_BASE <= c.address < FLASH_BASE + WINDOW && c.address % 4 == 0 && c.word < 0x1_0000_0000
  }

  predicate AllSound(cs: seq<Command>) {
    forall k :: 0 <= k < |cs| ==> Sound(cs[k])
  }

  lemma SoundJoins(a: seq<Command>, b: seq<Command>)
    requires AllSound(a) && AllSound(b)
    ensures AllSound(a + b)
  {
  }

  lemma CommitWrites(f: Flash, page: nat)
    ensures Receive(f, Text(Commit(page))) == Effect(f, Commit(page))
  {
    CommitDecodes(page);
    if page < 256 {
      StoreCommit(f, page);
    }
  }

  lemma StoreCommit(f: Flash, page: nat)
    requires page < 256
    ensures Store(f, COMMAND_REGISTER, 0x5A000003 + 0x100 * page) == WritePage(f, page)
  {
    var word := 0x5A000003 + 0x100 * page;
    assert word / 0x1000000 == 0x5A && word % 256 == 3 && word / 256 % 0x10000 == page;
  }

  /** Read from its text, every command does what it is for. */
  lemma TextMeans(f: Flash, c: Command)
    requires Sound(c)
    ensures Receive(f, Text(c)) == Effect(f, c)
  {
    match c
    case Erase => EraseDecodes();
    case Status => StatusDecodes();
    case Word(address, word) => WordDecodes(address, word);
    case Commit(page) => CommitWrites(f, page);
    case BootFromFlash => BootDecodes();
    case Go => GoDecodes();
  }

  // ---- Streams ----

  function ReceiveAll(f: Flash, texts: seq<string>): Flash {
    if texts == [] then f
    else Receive(ReceiveAll(f, texts[..|texts| - 1]), texts[|texts| - 1])
  }

  function EffectAll(f: Flash, cs: seq<Command>): Flash {
    if cs == [] then f
    else Effect(EffectAll(f, cs[..|cs| - 1]), cs[|cs| - 1])
  }

  function Texts(cs: seq<Command>): (t: seq<string>)
    ensures |t| == |cs|
  {
    seq(|cs|, k requires 0 <= k < |cs| => Text(cs[k]))
  }

  lemma {:induction false} TextsMean(f: Flash, cs: seq<Command>)
    requires AllSound(cs)
    ensures ReceiveAll(f, Texts(cs)) == EffectAll(f, cs)
  {
    if cs == [] {
    } else {
      var most, last := cs[..|cs| - 1], cs[|cs| - 1];
      TextsMean(f, most);
      TextMeans(EffectAll(f, most), last);
      assert Texts(cs)[..|cs| - 1] == Texts(most);
    }
  }

  lemma {:induction false} EffectJoins(f: Flash, a: seq<Command>, b: seq<Command>)
    ensures EffectAll(f, a + b) == EffectAll(EffectAll(f, a), b)
    decreases |b|
  {
    if b == [] {
      assert a + b == a;
    } else {
      EffectJoins(f, a, b[..|b| - 1]);
      assert (a + b)[..|a + b| - 1] == a + b[..|b| - 1];
    }
  }

  lemma EffectThree(f: Flash, a: seq<Command>, b: seq<Command>, c: seq<Command>)
    ensures EffectAll(f, a + b + c) == EffectAll(EffectAll(EffectAll(f, a), b), c)
  {
    EffectJoins(f, a, b);
    EffectJoins(f, a + b, c);
  }

  lemma EffectOne(f: Flash, c: Command)
    ensures EffectAll(f, [c]) == Effect(f, c)
  {
    assert [c][..0] == [];
  }

  lemma EffectTwo(f: Flash, c: Command, d: Command)
    ensures EffectAll(f, [c, d]) == Effect(Effect(f, c), d)
  {
    EffectOne(f, c);
    assert [c, d][..1] == [c];
  }
}
