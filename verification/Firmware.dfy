/**
 * The command stream with which `flash_firmware` programs an image: every word,
 * and a page commit after each 64 of them.
 */
module Firmware {
  import opened Wrappers
  import opened Monitor

  const PAGE := 256

  // ---- What is sent ----

  /** The `n`th word, low byte first. */
  function WordAt(data: seq<Byte>, n: nat): (w: nat)
    requires 4 * n + 4 <= |data|
    ensures w < 0x1_0000_0000
  {
    var a: int := data[4 * n];
    var b: int := data[4 * n + 1];
    var c: int := data[4 * n + 2];
    var d: int := data[4 * n + 3];
    a + 0x100 * b + 0x10000 * c + 0x1000000 * d
  }

  /** The commands of the pass for the `n`th word. */
  function Pass(data: seq<Byte>, n: nat): seq<Command>
    requires 4 * n + 4 <= |data|
  {
    [Word(FLASH_BASE + 4 * n, WordAt(data, n))]
    + (if n % WORDS == WORDS - 1 then [Commit(n / WORDS), Status] else [])
  }

  /** Everything the loop sends in its first `n` passes. */
  function Sent(data: seq<Byte>, n: nat): seq<Command>
    requires 4 * n <= |data|
  {
    if n == 0 then [] else Sent(data, n - 1) + Pass(data, n - 1)
  }

  /** The whole session: erase, program, leave the monitor. */
  function Session(data: seq<Byte>): seq<Command> {
    [Erase, Status] + Sent(data, |data| / 4) + [BootFromFlash, Go]
  }

  lemma PassSound(data: seq<Byte>, n: nat)
    requires 4 * n + 4 <= |data| <= WINDOW
    ensures AllSound(Pass(data, n))
  {
  }

  lemma {:induction false} SentSound(data: seq<Byte>, n: nat)
    requires 4 * n <= |data| <= WINDOW
    ensures AllSound(Sent(data, n))
  {
    if n == 0 {
    } else {
      SentSound(data, n - 1);
      PassSound(data, n - 1);
      SoundJoins(Sent(data, n - 1), Pass(data, n - 1));
    }
  }

  // ---- What the flash holds after each pass ----

  function PageOf(data: seq<Byte>, p: nat): (w: seq<nat>)
    requires (p + 1) * PAGE <= |data|
    ensures |w| == WORDS
  {
    seq<nat>(WORDS, k requires 0 <= k < WORDS => WordAt(data, WORDS * p + k))
  }

  function UpTo(n: nat): seq<nat> {
    seq(n, k => k)
  }

  /** The latch holds the words of the page being filled. */
  ghost predicate Latched(latch: seq<nat>, data: seq<Byte>, n: nat)
    requires 4 * n <= |data|
  {
    && |latch| == WORDS
    && forall k: nat :: k < n % WORDS ==> latch[k] == WordAt(data, n - n % WORDS + k)
  }

  /** The pages before `p` that have a two-digit number are committed, in order and once. */
  ghost predicate Committed(f: Flash, data: seq<Byte>, p: nat)
    requires p * PAGE <= |data|
  {
    && f.started.None? && f.commits == UpTo(Min(p, 256))
    && (forall q: nat :: q in f.pages <==> q < Min(p, 256))
    && (forall q: nat :: q < Min(p, 256) ==> f.pages[q] == PageOf(data, q))
  }

  /** The place of a word in its page, and what the next word's is. */
  lemma Slots(n: nat)
    ensures (FLASH_BASE + 4 * n) / 4 % WORDS == n % WORDS && n == WORDS * (n / WORDS) + n % WORDS
    ensures n % WORDS != WORDS - 1 ==> (n + 1) / WORDS == n / WORDS && (n + 1) % WORDS == n % WORDS + 1
    ensures n % WORDS == WORDS - 1 ==> (n + 1) / WORDS == n / WORDS + 1 && (n + 1) % WORDS == 0
  {
    assert (FLASH_BASE + 4 * n) / 4 == WORDS * 0x800 + n;
  }

  lemma PageFills(latch: seq<nat>, data: seq<Byte>, p: nat)
    requires (p + 1) * PAGE <= |data| && |latch| == WORDS
    requires forall k: nat :: k < WORDS - 1 ==> latch[k] == WordAt(data, WORDS * p + k)
    ensures latch[WORDS - 1 := WordAt(data, WORDS * p + WORDS - 1)] == PageOf(data, p)
  {
  }

  /** A word enters the latch at its place in the page, and the last one fills it. */
  lemma LatchWord(f: Flash, data: seq<Byte>, n: nat)
    requires 4 * n + 4 <= |data|
    requires Latched(f.latch, data, n)
    ensures var g := Latch(f, FLASH_BASE + 4 * n, WordAt(data, n));
      && g == f.(latch := g.latch)
      && (n % WORDS != WORDS - 1 ==> Latched(g.latch, data, n + 1))
      && (n % WORDS == WORDS - 1 ==> (n / WORDS + 1) * PAGE <= |data| && g.latch == PageOf(data, n / WORDS))
  {
    Slots(n);
    if n % WORDS == WORDS - 1 {
      PageFills(f.latch, data, n / WORDS);
    }
  }

  lemma WriteKeeps(f: Flash, data: seq<Byte>, p: nat)
    requires (p + 1) * PAGE <= |data| && f.latch == PageOf(data, p) && Committed(f, data, p)
    ensures Committed(Effect(f, Commit(p)), data, p + 1)
  {
    if p < 256 {
      assert UpTo(p + 1) == UpTo(p) + [p];
    }
  }

  ghost predicate Programmed(f: Flash, data: seq<Byte>, n: nat)
    requires 4 * n <= |data|
  {
    Latched(f.latch, data, n) && Committed(f, data, n / WORDS)
  }

  /** One pass: its word enters the latch, and the last word of a page commits it. */
  lemma PassPrograms(f: Flash, data: seq<Byte>, n: nat)
    requires 4 * n + 4 <= |data| && Programmed(f, data, n)
    ensures Programmed(EffectAll(f, Pass(data, n)), data, n + 1)
  {
    var word := Word(FLASH_BASE + 4 * n, WordAt(data, n));
    var g := Effect(f, word);
    LatchWord(f, data, n);
    EffectOne(f, word);
    Slots(n);
    if n % WORDS == WORDS - 1 {
      WriteKeeps(g, data, n / WORDS);
      EffectJoins(f, [word], [Commit(n / WORDS), Status]);
      EffectTwo(g, Commit(n / WORDS), Status);
    } else {
      assert Pass(data, n) == [word];
    }
  }

  /** What any number of passes does, pass by pass. */
  function After(f: Flash, data: seq<Byte>, n: nat): Flash
    requires 4 * n <= |data|
  {
    if n == 0 then f else EffectAll(After(f, data, n - 1), Pass(data, n - 1))
  }

  lemma {:induction false} AfterAll(f: Flash, data: seq<Byte>, n: nat)
    requires 4 * n <= |data|
    ensures EffectAll(f, Sent(data, n)) == After(f, data, n)
  {
    if n > 0 {
      AfterAll(f, data, n - 1);
      EffectJoins(f, Sent(data, n - 1), Pass(data, n - 1));
    }
  }

  /** Any number of passes over any data. */
  lemma {:induction false} PassesProgram(f: Flash, data: seq<Byte>, n: nat)
    requires 4 * n <= |data|
    requires |f.latch| == WORDS && f.pages == map[] && f.commits == [] && f.started.None?
    ensures Programmed(After(f, data, n), data, n)
  {
    if n > 0 {
      PassesProgram(f, data, n - 1);
      PassPrograms(After(f, data, n - 1), data, n - 1);
    }
  }

  lemma PassPolls(f: Flash, data: seq<Byte>, n: nat)
    requires 4 * n + 4 <= |data| && f.started.None?
    ensures var g := EffectAll(f, Pass(data, n));
      g.started.None? && g.polls == f.polls + (if n % WORDS == WORDS - 1 then 1 else 0)
  {
    var word := Word(FLASH_BASE + 4 * n, WordAt(data, n));
    EffectOne(f, word);
    if n % WORDS == WORDS - 1 {
      EffectJoins(f, [word], [Commit(n / WORDS), Status]);
      EffectTwo(Effect(f, word), Commit(n / WORDS), Status);
    } else {
      assert Pass(data, n) == [word];
    }
  }

  /** A status request goes with each full page. */
  lemma {:induction false} PassesPoll(f: Flash, data: seq<Byte>, n: nat)
    requires 4 * n <= |data| && f.started.None?
    ensures After(f, data, n).started.None? && After(f, data, n).polls == f.polls + n / WORDS
  {
    if n > 0 {
      PassesPoll(f, data, n - 1);
      PassPolls(After(f, data, n - 1), data, n - 1);
      Slots(n - 1);
    }
  }

  /** What surrounds the pages: an erasure before them; after them the chip is set to its flash and started. */
  function Left(f: Flash): Flash {
    f.(boot := true, started := Some(0))
  }

  lemma Framed(f: Flash, body: seq<Command>)
    requires f.started.None? && EffectAll(EraseAll(f).(polls := f.polls + 1), body).started.None?
    ensures var session := [Erase, Status] + body + [BootFromFlash, Go];
      && EffectAll(f, session) == Left(EffectAll(EraseAll(f).(polls := f.polls + 1), body))
      && (AllSound(body) ==> AllSound(session))
  {
    EffectThree(f, [Erase, Status], body, [BootFromFlash, Go]);
    EffectTwo(f, Erase, Status);
    EffectTwo(EffectAll(EraseAll(f).(polls := f.polls + 1), body), BootFromFlash, Go);
  }

  lemma SessionMeans(f: Flash, data: seq<Byte>)
    requires |data| <= WINDOW && f.started.None?
    requires EffectAll(EraseAll(f).(polls := f.polls + 1), Sent(data, |data| / 4)).started.None?
    ensures ReceiveAll(f, Texts(Session(data)))
         == Left(EffectAll(EraseAll(f).(polls := f.polls + 1), Sent(data, |data| / 4)))
  {
    var body := Sent(data, |data| / 4);
    SentSound(data, |data| / 4);
    Framed(f, body);
    TextsMean(f, [Erase, Status] + body + [BootFromFlash, Go]);
  }

  /**
   * The session leaves exactly the pages whose number has two digits, each committed
   * once and in order, after one status request for the erasure and one for each
   * page; only then the chip is set to its flash and started.
   */
  lemma SessionPrograms(f: Flash, data: seq<Byte>)
    requires |data| <= WINDOW && |data| % PAGE == 0 && f.commits == [] && f.started.None?
    ensures var g := ReceiveAll(f, Texts(Session(data)));
      && Committed(g.(started := None), data, |data| / PAGE)
      && g.boot && g.started == Some(0) && g.polls == f.polls + 1 + |data| / PAGE
  {
    PassesProgram(EraseAll(f).(polls := f.polls + 1), data, |data| / 4);
    PassesPoll(EraseAll(f).(polls := f.polls + 1), data, |data| / 4);
    AfterAll(EraseAll(f).(polls := f.polls + 1), data, |data| / 4);
    SessionMeans(f, data);
    assert |data| / 4 / WORDS == |data| / PAGE;
  }

  // ---- Bytes ----

  /** The byte of a word at offset `k`, low byte first. */
  function ByteOf(word: nat, k: nat): Byte {
    if k == 0 then word % 256 else ByteOf(word / 256, k - 1)
  }

  /** What the flash holds at an offset. */
  function ByteAt(f: Flash, i: nat): Byte {
    if i / PAGE in f.pages && |f.pages[i / PAGE]| == WORDS
    then ByteOf(f.pages[i / PAGE][i % PAGE / 4], i % 4)
    else 0xFF
  }

  /** `count` bytes as a number, low byte first. */
  function Packed(data: seq<Byte>, pos: nat, count: nat): nat
    requires pos + count <= |data|
    decreases count
  {
    if count == 0 then 0 else
      var low: int := data[pos];
      low + 256 * Packed(data, pos + 1, count - 1)
  }

  lemma {:induction false} PackedBytes(data: seq<Byte>, pos: nat, count: nat, k: nat)
    requires pos + count <= |data| && k < count
    ensures ByteOf(Packed(data, pos, count), k) == data[pos + k]
    decreases count
  {
    var low: int := data[pos];
    var high := Packed(data, pos + 1, count - 1);
    assert Packed(data, pos, count) == low + 256 * high;
    assert (low + 256 * high) % 256 == low && (low + 256 * high) / 256 == high;
    if k > 0 {
      PackedBytes(data, pos + 1, count - 1, k - 1);
    }
  }

  lemma WordIsPacked(data: seq<Byte>, n: nat)
    requires 4 * n + 4 <= |data|
    ensures WordAt(data, n) == Packed(data, 4 * n, 4)
  {
    var pos := 4 * n;
    var b: int := data[pos + 1];
    var c: int := data[pos + 2];
    var d: int := data[pos + 3];
    assert Packed(data, pos + 4, 0) == 0;
    assert Packed(data, pos + 3, 1) == d;
    assert Packed(data, pos + 2, 2) == c + 256 * d;
    assert Packed(data, pos + 1, 3) == b + 256 * (c + 256 * d);
  }

  lemma CommittedByte(f: Flash, data: seq<Byte>, i: nat)
    requires |data| % PAGE == 0 && i < |data| && Committed(f, data, |data| / PAGE)
    ensures ByteAt(f, i) == if i < 0x10000 then data[i] else 0xFF
  {
    var p := i / PAGE;
    if i < 0x10000 {
      var n := WORDS * p + i % PAGE / 4;
      assert i == 4 * n + i % 4;
      assert p in f.pages && f.pages[p] == PageOf(data, p);
      WordIsPacked(data, n);
      PackedBytes(data, 4 * n, 4, i % 4);
    }
  }

  /** The flash holds the image. */
  ghost predicate Stores(f: Flash, image: seq<Byte>) {
    forall i: nat :: i < |image| ==> ByteAt(f, i) == image[i]
  }

  /** An image survives just when whatever lies beyond 64 KiB of it looks erased. */
  lemma ImageStored(f: Flash, image: seq<Byte>, data: seq<Byte>)
    requires |data| <= WINDOW && |data| % PAGE == 0 && image <= data
    requires f.commits == [] && f.started.None?
    ensures var g := ReceiveAll(f, Texts(Session(data)));
      && g.commits == UpTo(Min(|data| / PAGE, 256))
      && g.boot && g.started == Some(0) && g.polls == f.polls + 1 + |data| / PAGE
      && (Stores(g, image) <==> forall i :: 0x10000 <= i < |image| ==> image[i] == 0xFF)
  {
    var g := ReceiveAll(f, Texts(Session(data)));
    SessionPrograms(f, data);
    forall i: nat | i < |image|
      ensures ByteAt(g, i) == if i < 0x10000 then image[i] else 0xFF
    {
      CommittedByte(g.(started := None), data, i);
    }
  }

  /** What holds of every device the commands are sent to. */
  ghost predicate Programs(sent: seq<string>, image: seq<Byte>, pages: nat) {
    forall f: Flash :: f.commits == [] && f.started.None? ==>
      var g := ReceiveAll(f, sent);
      && g.commits == UpTo(Min(pages, 256))
      && g.boot && g.started == Some(0) && g.polls == f.polls + 1 + pages
      && (Stores(g, image) <==> forall i :: 0x10000 <= i < |image| ==> image[i] == 0xFF)
  }

  lemma SessionOutcome(image: seq<Byte>, data: seq<Byte>)
    requires |data| <= WINDOW && |data| % PAGE == 0 && image <= data
    ensures Programs(Texts(Session(data)), image, |data| / PAGE)
  {
    forall f: Flash | f.commits == [] && f.started.None?
      ensures var g := ReceiveAll(f, Texts(Session(data)));
        && g.commits == UpTo(Min(|data| / PAGE, 256))
        && g.boot && g.started == Some(0) && g.polls == f.polls + 1 + |data| / PAGE
        && (Stores(g, image) <==> forall i :: 0x10000 <= i < |image| ==> image[i] == 0xFF)
    {
      ImageStored(f, image, data);
    }
  }

  // ---- The code ----

  lemma TextsAppend(a: seq<Command>, b: seq<Command>)
    ensures Texts(a + b) == Texts(a) + Texts(b)
  {
  }

  /** The texts that one pass adds. */
  lemma TextsPass(data: seq<Byte>, n: nat)
    requires 4 * n + 4 <= |data|
    ensures Texts(Sent(data, n + 1)) == Texts(Sent(data, n)) + Texts(Pass(data, n))
    ensures Texts(Pass(data, n)) == [Text(Word(FLASH_BASE + 4 * n, WordAt(data, n)))]
      + (if n % WORDS == WORDS - 1 then [Text(Commit(n / WORDS)), Text(Status)] else [])
  {
    TextsAppend(Sent(data, n), Pass(data, n));
  }

  /** The padded buffer: a page more than enough when the image fills its pages. */
  method Load(image: seq<Byte>) returns (buffer: array<Byte>)
    ensures fresh(buffer)
    ensures buffer.Length % PAGE == 0 && |image| < buffer.Length <= |image| + PAGE
    ensures image <= buffer[..]
  {
    var size := |image| + (PAGE - |image| % PAGE);
    buffer := new Byte[size];
    for i := 0 to |image|
      invariant buffer[..i] == image[..i]
    {
      buffer[i] := image[i];
    }
    assert buffer[..|image|] == image;
  }

  lemma Place(page: nat, slot: nat)
    requires slot < WORDS
    ensures var n := WORDS * page + slot; n / WORDS == page && n % WORDS == slot && 4 * n % PAGE == 4 * slot
  {
  }

  /** What the pass for word `slot` of a page adds to what was sent. */
  lemma SentNext(data: seq<Byte>, page: nat, slot: nat, n: nat)
    requires slot < WORDS && n == WORDS * page + slot && 4 * n + 4 <= |data|
    ensures 4 * n % PAGE == 0xFC <==> slot == WORDS - 1
    ensures Texts(Sent(data, n + 1)) == Texts(Sent(data, n)) + ([Text(Word(FLASH_BASE + 4 * n, WordAt(data, n)))]
      + (if slot == WORDS - 1 then [Text(Commit(page)), Text(Status)] else []))
  {
    TextsPass(data, n);
    Place(page, slot);
  }

  /** The word at a position of the buffer, low byte first. */
  method Assemble(buffer: array<Byte>, pos: nat, ghost n: nat) returns (word: nat)
    requires pos == 4 * n && pos + 4 <= buffer.Length
    ensures word == WordAt(buffer[..], n)
  {
    word := buffer[pos] as int + 0x100 * buffer[pos + 1] as int
      + 0x10000 * buffer[pos + 2] as int + 0x1000000 * buffer[pos + 3] as int;
  }

  /** The loop: words, and a commit and a status request at the end of each page. */
  method SendPages(buffer: array<Byte>) returns (sent: seq<string>, page: nat)
    requires buffer.Length % PAGE == 0
    ensures sent == Texts(Sent(buffer[..], buffer.Length / 4))
    ensures page * PAGE == buffer.Length
  {
    ghost var data, n, slot := buffer[..], 0, 0;
    sent, page := [], 0;
    var pos := 0;
    while pos < buffer.Length
      invariant 0 <= slot < WORDS && n == WORDS * page + slot && pos == 4 * n <= buffer.Length
      invariant sent == Texts(Sent(data, n))
    {
      var word := Assemble(buffer, pos, n);
      SentNext(data, page, slot, n);
      var pass := [Text(Word(FLASH_BASE + pos, word))];
      if pos % PAGE == 0xFC {
        pass := pass + [Text(Commit(page)), Text(Status)];
        page, slot := page + 1, 0;
      } else {
        slot := slot + 1;
      }
      sent := sent + pass;
      pos, n := pos + 4, n + 1;
    }
    Place(page, slot);
  }

  /**
   * All commands for one device, and the number of pages counted.  The contents
   * of the padding are whatever the buffer held.  The replies are not part of
   * this model: without one the code stops, after the same pages were written.
   */
  method FlashDevice(image: seq<Byte>) returns (sent: seq<string>, pages: nat)
    requires |image| + PAGE <= WINDOW
    ensures pages == |image| / PAGE + 1
    ensures Programs(sent, image, pages)
  {
    var buffer := Load(image);
    var body: seq<string>;
    body, pages := SendPages(buffer);
    sent := [Text(Erase), Text(Status)] + body + [Text(BootFromFlash), Text(Go)];
    assert sent == Texts(Session(buffer[..]));
    SessionOutcome(image, buffer[..]);
  }
}
