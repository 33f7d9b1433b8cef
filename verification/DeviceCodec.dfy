/** The annotation format of assigned vGPUs, as read by pkg/devices/volcano/vgpu/util.go. */
module DeviceCodec {
  import opened Wrappers

  datatype Device = Device(ctrIdx: nat, uuid: string, kind: string, usedMem: int, usedCores: int)

  type ContainerDevices = seq<Device>

  const MAX_UINT32: nat := 0xFFFF_FFFF
  const CUTOFF: int := 0x8000_0000

  // strings.Split and its inverse.

  function Split(s: string, sep: char): (r: seq<string>)
    ensures |r| >= 1
  {
    if s == "" then [""]
    else
      var r := Split(s[1..], sep);
      if s[0] == sep then [""] + r else [[s[0]] + r[0]] + r[1..]
  }

  function Join(xs: seq<string>, sep: char): string {
    if xs == [] then "" else if |xs| == 1 then xs[0] else xs[0] + [sep] + Join(xs[1..], sep)
  }

  lemma {:induction false} SplitPrefix(x: string, sep: char, rest: string)
    requires sep !in x
    ensures Split(x + [sep] + rest, sep) == [x] + Split(rest, sep)
    decreases |x|
  {
    var s := x + [sep] + rest;
    if x == "" {
      assert s == [sep] + rest && s[1..] == rest;
    } else {
      assert s[1..] == x[1..] + [sep] + rest;
      SplitPrefix(x[1..], sep, rest);
      assert [x[0]] + x[1..] == x;
    }
  }

  lemma {:induction false} SplitOne(x: string, sep: char)
    requires sep !in x
    ensures Split(x, sep) == [x]
    decreases |x|
  {
    if x != "" {
      SplitOne(x[1..], sep);
      assert [x[0]] + x[1..] == x;
    }
  }

  /** Splitting undoes joining, for at least one part and parts without the separator. */
  lemma {:induction false} SplitJoin(xs: seq<string>, sep: char)
    requires xs != [] && forall x :: x in xs ==> sep !in x
    ensures Split(Join(xs, sep), sep) == xs
    decreases |xs|
  {
    if |xs| == 1 {
      SplitOne(xs[0], sep);
    } else {
      SplitJoin(xs[1..], sep);
      SplitPrefix(xs[0], sep, Join(xs[1..], sep));
    }
  }

  lemma {:induction false} JoinIsFree(xs: seq<string>, sep: char, c: char)
    requires c != sep && forall x :: x in xs ==> c !in x
    ensures c !in Join(xs, sep)
    decreases |xs|
  {
    if |xs| > 1 {
      JoinIsFree(xs[1..], sep, c);
    }
  }

  // strconv.ParseInt(s, 10, 32) with its error dropped.

  datatype Scanned = Value(n: nat) | Syntax | Range

  /** Digits from the left; too large a number is noticed before a later bad character. */
  function Scan(s: string, acc: nat): Scanned
    decreases |s|
  {
    if s == "" then Value(acc)
    else if !('0' <= s[0] <= '9') then Syntax
    else
      var n := acc * 10 + (s[0] as int - '0' as int);
      if n > MAX_UINT32 then Range else Scan(s[1..], n)
  }

  function ParseInt32(s: string): int {
    if s == "" then 0
    else
      var negative := s[0] == '-';
      var digits := if s[0] == '-' || s[0] == '+' then s[1..] else s;
      if digits == "" then 0
      else
        match Scan(digits, 0)
        case Syntax => 0
        case Range => if negative then -CUTOFF else CUTOFF - 1
        case Value(value) =>
          var n: int := value;
          if !negative && n >= CUTOFF then CUTOFF - 1
          else if negative && n > CUTOFF then -CUTOFF
          else if negative then -n else n
  }

  function Digit(d: nat): char
    requires d < 10
  {
    '0' + d as char
  }

  function Digits(n: nat): (s: string)
    ensures |s| > 0 && forall c :: c in s ==> '0' <= c <= '9'
  {
    if n < 10 then [Digit(n)] else Digits(n / 10) + [Digit(n % 10)]
  }

  function Format(n: int): string {
    if n < 0 then "-" + Digits(-n) else Digits(n)
  }

  lemma {:induction false} ScanAppends(a: string, b: string, acc: nat)
    requires Scan(a, acc).Value?
    ensures Scan(a + b, acc) == Scan(b, Scan(a, acc).n)
    decreases |a|
  {
    if a == "" {
      assert a + b == b;
    } else {
      assert (a + b)[1..] == a[1..] + b;
      ScanAppends(a[1..], b, acc * 10 + (a[0] as int - '0' as int));
    }
  }

  lemma {:induction false} ScanDigits(n: nat)
    requires n <= MAX_UINT32
    ensures Scan(Digits(n), 0) == Value(n)
    decreases n
  {
    if n < 10 {
      assert Digits(n)[1..] == "";
    } else {
      ScanDigits(n / 10);
      ScanAppends(Digits(n / 10), [Digit(n % 10)], 0);
      assert [Digit(n % 10)][1..] == "";
    }
  }

  /** Parsing undoes formatting, up to clamping at the largest int32. */
  lemma ParseFormat(n: int)
    requires -CUTOFF <= n <= MAX_UINT32
    ensures ParseInt32(Format(n)) == if n < CUTOFF then n else CUTOFF - 1
  {
    if n < 0 {
      ScanDigits(-n);
      assert ("-" + Digits(-n))[1..] == Digits(-n);
    } else {
      ScanDigits(n);
    }
  }

  // Parsing reads decimal numbers.

  predicate AllDigits(s: string) {
    forall c :: c in s ==> '0' <= c <= '9'
  }

  lemma {:induction false} DigitsScan(s: string, acc: nat)
    requires AllDigits(s)
    ensures !Scan(s, acc).Syntax?
    decreases |s|
  {
    if s != "" {
      assert s[0] in s;
      assert forall c :: c in s[1..] ==> c in s;
      var n := acc * 10 + (s[0] as int - '0' as int);
      if n <= MAX_UINT32 {
        DigitsScan(s[1..], n);
      }
    }
  }

  /** One more digit is ten times the number and the digit. */
  lemma ParseIsDecimal(s: string, c: char)
    requires AllDigits(s) && '0' <= c <= '9'
    ensures ParseInt32([c]) == c as int - 48
    ensures s != "" && ParseInt32(s) <= 214748363 ==> ParseInt32(s + [c]) == ParseInt32(s) * 10 + (c as int - 48)
  {
    assert [c][1..] == "";
    assert Scan([c], 0) == Scan("", c as int - 48);
    if s != "" && ParseInt32(s) <= 214748363 {
      assert s[0] in s;
      DigitsScan(s, 0);
      ScanAppends(s, [c], 0);
    }
  }

  lemma ParseSigns(s: string)
    requires s != "" && AllDigits(s) && ParseInt32(s) < 2147483647
    ensures ParseInt32("-" + s) == -ParseInt32(s) && ParseInt32("+" + s) == ParseInt32(s)
  {
    assert s[0] in s;
    assert ("-" + s)[1..] == s && ("+" + s)[1..] == s;
    DigitsScan(s, 0);
  }

  /** What is not a number counts as zero: the error is dropped. */
  lemma ParseJunk(s: string, c: char, rest: string)
    requires AllDigits(s) && s != "" && ParseInt32(s) < 2147483647 && !('0' <= c <= '9')
    ensures ParseInt32(s + [c] + rest) == 0 && ParseInt32("") == 0
  {
    assert s[0] in s;
    DigitsScan(s, 0);
    ScanAppends(s, [c] + rest, 0);
    assert s + [c] + rest == s + ([c] + rest);
  }

  lemma FormatIsFree(n: int, c: char)
    requires c == ',' || c == ':' || c == ';'
    ensures c !in Format(n)
  {
  }

  // Decoding.

  /** uint32 of a parsed index, and int32 of parsed quantities; None where a field is missing. */
  function DecodeDevice(fields: seq<string>): Option<Device> {
    if |fields| < 5 then None
    else Some(Device(ParseInt32(fields[0]) % (MAX_UINT32 + 1), fields[1], fields[2],
                     ParseInt32(fields[3]), ParseInt32(fields[4])))
  }

  /** The devices of the first pieces; pieces without a comma are skipped, and too few fields are a panic. */
  function DecodePieces(pieces: seq<string>): Outcome<ContainerDevices> {
    if pieces == [] then Done([])
    else
      var last := pieces[|pieces| - 1];
      match DecodePieces(pieces[..|pieces| - 1])
      case Failed => Failed
      case Panicked => Panicked
      case Done(ds) =>
        if ',' !in last then Done(ds)
        else
          match DecodeDevice(Split(last, ','))
          case None => Panicked
          case Some(d) => Done(ds + [d])
  }

  function DecodeContainer(str: string): Outcome<ContainerDevices> {
    if str == "" then Done([]) else DecodePieces(Split(str, ':'))
  }

  function DecodeAll(parts: seq<string>): Outcome<seq<ContainerDevices>> {
    if parts == [] then Done([])
    else
      match DecodeAll(parts[..|parts| - 1])
      case Failed => Failed
      case Panicked => Panicked
      case Done(pd) =>
        match DecodeContainer(parts[|parts| - 1])
        case Failed => Failed
        case Panicked => Panicked
        case Done(cd) => Done(pd + [cd])
  }

  function DecodePod(str: string): Outcome<seq<ContainerDevices>> {
    if str == "" then Done([]) else DecodeAll(Split(str, ';'))
  }

  method DecodeContainerDevices(str: string) returns (r: Outcome<ContainerDevices>)
    ensures r == DecodeContainer(str)
  {
    if str == "" {
      return Done([]);
    }
    var cd := Split(str, ':');
    var contdev: ContainerDevices := [];
    for i := 0 to |cd|
      invariant DecodePieces(cd[..i]) == Done(contdev)
    {
      assert cd[..i + 1][..i] == cd[..i];
      if ',' in cd[i] {
        var dev := DecodeDevice(Split(cd[i], ','));
        if dev.None? {
          PiecesPanic(cd, i + 1);
          return Panicked;
        }
        contdev := contdev + [dev.value];
      }
    }
    assert cd[..|cd|] == cd;
    return Done(contdev);
  }

  lemma {:induction false} PiecesPanic(pieces: seq<string>, i: nat)
    requires i <= |pieces| && DecodePieces(pieces[..i]).Panicked?
    ensures DecodePieces(pieces).Panicked?
    decreases |pieces| - i
  {
    if i == |pieces| {
      assert pieces[..i] == pieces;
    } else {
      assert pieces[..i + 1][..i] == pieces[..i];
      PiecesPanic(pieces, i + 1);
    }
  }

  method DecodePodDevices(str: string) returns (r: Outcome<seq<ContainerDevices>>)
    ensures r == DecodePod(str)
  {
    if str == "" {
      return Done([]);
    }
    var parts := Split(str, ';');
    var pd: seq<ContainerDevices> := [];
    for i := 0 to |parts|
      invariant DecodeAll(parts[..i]) == Done(pd)
    {
      assert parts[..i + 1][..i] == parts[..i];
      var cd := DecodeContainerDevices(parts[i]);
      match cd {
        case Done(ds) => pd := pd + [ds];
        case Failed =>
          AllStops(parts, i + 1);
          return Failed;
        case Panicked =>
          AllStops(parts, i + 1);
          return Panicked;
      }
    }
    assert parts[..|parts|] == parts;
    return Done(pd);
  }

  lemma {:induction false} AllStops(parts: seq<string>, i: nat)
    requires i <= |parts| && !DecodeAll(parts[..i]).Done?
    ensures DecodeAll(parts) == DecodeAll(parts[..i])
    decreases |parts| - i
  {
    if i == |parts| {
      assert parts[..i] == parts;
    } else {
      assert parts[..i + 1][..i] == parts[..i];
      AllStops(parts, i + 1);
    }
  }

  // Rendering.

  function RenderDevice(d: Device): string {
    Join([Format(d.ctrIdx), d.uuid, d.kind, Format(d.usedMem), Format(d.usedCores)], ',')
  }

  function RenderAll(ds: ContainerDevices): (r: seq<string>)
    ensures |r| == |ds|
  {
    seq(|ds|, i requires 0 <= i < |ds| => RenderDevice(ds[i]))
  }

  function RenderContainer(ds: ContainerDevices): string {
    Join(RenderAll(ds), ':')
  }

  function RenderContainers(pd: seq<ContainerDevices>): (r: seq<string>)
    ensures |r| == |pd|
  {
    seq(|pd|, i requires 0 <= i < |pd| => RenderContainer(pd[i]))
  }

  function RenderPod(pd: seq<ContainerDevices>): string {
    Join(RenderContainers(pd), ';')
  }

  predicate Free(s: string) {
    ',' !in s && ':' !in s && ';' !in s
  }

  /** A device that the annotation can carry: names without separators, a uint32 index, int32 quantities. */
  predicate Renderable(d: Device) {
    && Free(d.uuid) && Free(d.kind)
    && d.ctrIdx <= MAX_UINT32
    && -CUTOFF <= d.usedMem < CUTOFF && -CUTOFF <= d.usedCores < CUTOFF
  }

  predicate AllRenderable(ds: ContainerDevices) {
    forall d :: d in ds ==> Renderable(d)
  }

  predicate SmallIndexes(ds: ContainerDevices) {
    forall d :: d in ds ==> d.ctrIdx < CUTOFF
  }

  function Clamped(d: Device): Device {
    if d.ctrIdx < CUTOFF then d else d.(ctrIdx := CUTOFF - 1)
  }

  function ClampedAll(ds: ContainerDevices): (r: ContainerDevices)
    ensures |r| == |ds|
  {
    seq(|ds|, i requires 0 <= i < |ds| => Clamped(ds[i]))
  }

  function ClampedPod(pd: seq<ContainerDevices>): (r: seq<ContainerDevices>)
    ensures |r| == |pd|
  {
    seq(|pd|, i requires 0 <= i < |pd| => ClampedAll(pd[i]))
  }

  lemma DeviceRoundTrip(d: Device)
    requires Renderable(d)
    ensures DecodeDevice(Split(RenderDevice(d), ',')) == Some(Clamped(d))
    ensures ',' in RenderDevice(d) && ':' !in RenderDevice(d) && ';' !in RenderDevice(d)
  {
    hide Split, Join, Format, ParseInt32;
    var fields := [Format(d.ctrIdx), d.uuid, d.kind, Format(d.usedMem), Format(d.usedCores)];
    forall n: int, c: char | c == ',' || c == ':' || c == ';'
      ensures c !in Format(n)
    {
      FormatIsFree(n, c);
    }
    SplitJoin(fields, ',');
    JoinIsFree(fields, ',', ':');
    JoinIsFree(fields, ',', ';');
    ParseFormat(d.ctrIdx);
    ParseFormat(d.usedMem);
    ParseFormat(d.usedCores);
    JoinHasSeparator(fields, ',');
  }

  lemma JoinHasSeparator(xs: seq<string>, sep: char)
    requires |xs| > 1
    ensures sep in Join(xs, sep)
  {
    var s := Join(xs, sep);
    assert s[|xs[0]|] == sep;
  }

  lemma {:induction false} PiecesRoundTrip(ds: ContainerDevices)
    requires AllRenderable(ds)
    ensures DecodePieces(RenderAll(ds)) == Done(ClampedAll(ds))
    decreases |ds|
  {
    hide RenderDevice, DecodeDevice, Split, Clamped, Renderable;
    if ds != [] {
      var front, last := ds[..|ds| - 1], ds[|ds| - 1];
      assert last in ds;
      PiecesRoundTrip(front);
      DeviceRoundTrip(last);
      assert RenderAll(ds)[..|ds| - 1] == RenderAll(front);
      assert ClampedAll(ds) == ClampedAll(front) + [Clamped(last)];
    }
  }

  lemma ContainerRoundTrip(ds: ContainerDevices)
    requires AllRenderable(ds)
    ensures DecodeContainer(RenderContainer(ds)) == Done(ClampedAll(ds))
    ensures ';' !in RenderContainer(ds)
    ensures RenderContainer(ds) == "" <==> ds == []
  {
    var pieces := RenderAll(ds);
    forall x | x in pieces
      ensures ':' !in x && ';' !in x && x != ""
    {
      var i :| 0 <= i < |ds| && pieces[i] == x;
      DeviceRoundTrip(ds[i]);
    }
    JoinIsFree(pieces, ':', ';');
    if ds != [] {
      SplitJoin(pieces, ':');
      PiecesRoundTrip(ds);
      assert pieces[0] in pieces;
    }
  }

  lemma {:induction false} ContainersRoundTrip(pd: seq<ContainerDevices>)
    requires forall ds :: ds in pd ==> AllRenderable(ds)
    ensures DecodeAll(RenderContainers(pd)) == Done(ClampedPod(pd))
    decreases |pd|
  {
    hide DecodeContainer, RenderContainer, ClampedAll, AllRenderable;
    if pd != [] {
      var front, last := pd[..|pd| - 1], pd[|pd| - 1];
      assert last in pd && AllRenderable(last);
      assert forall ds :: ds in front ==> ds in pd;
      ContainersRoundTrip(front);
      ContainerRoundTrip(last);
      assert RenderContainers(pd)[..|pd| - 1] == RenderContainers(front);
      assert ClampedPod(pd) == ClampedPod(front) + [ClampedAll(last)];
    }
  }

  /** Decoding what was rendered gives the list back, with container indexes clamped to an int32. */
  lemma PodRoundTrip(pd: seq<ContainerDevices>)
    requires forall ds :: ds in pd ==> AllRenderable(ds)
    ensures DecodePod(RenderPod(pd)) == if pd == [[]] then Done([]) else Done(ClampedPod(pd))
  {
    var parts := RenderContainers(pd);
    forall x | x in parts
      ensures ';' !in x
    {
      var i :| 0 <= i < |pd| && parts[i] == x;
      assert pd[i] in pd;
      ContainerRoundTrip(pd[i]);
    }
    if |pd| == 1 {
      assert pd[0] in pd;
      ContainerRoundTrip(pd[0]);
    }
    if pd != [] && pd != [[]] {
      SplitJoin(parts, ';');
      ContainersRoundTrip(pd);
      assert RenderPod(pd) != "" by {
        if |pd| == 1 {
          assert pd == [pd[0]];
        } else {
          JoinHasSeparator(parts, ';');
        }
      }
    }
  }

  /** The list comes back unchanged exactly when it is not a single empty one and every index has 31 bits. */
  lemma DecodeUndoesRenderIff(pd: seq<ContainerDevices>)
    requires forall ds :: ds in pd ==> AllRenderable(ds)
    ensures DecodePod(RenderPod(pd)) == Done(pd)
       <==> pd != [[]] && forall ds :: ds in pd ==> SmallIndexes(ds)
  {
    PodRoundTrip(pd);
    if forall ds :: ds in pd ==> SmallIndexes(ds) {
      forall i | 0 <= i < |pd|
        ensures ClampedAll(pd[i]) == pd[i]
      {
        assert pd[i] in pd;
        forall j | 0 <= j < |pd[i]|
          ensures Clamped(pd[i][j]) == pd[i][j]
        {
          assert pd[i][j] in pd[i];
        }
      }
      assert ClampedPod(pd) == pd;
    } else {
      var ds :| ds in pd && !SmallIndexes(ds);
      var i :| 0 <= i < |pd| && pd[i] == ds;
      var d :| d in ds && d.ctrIdx >= CUTOFF;
      var j :| 0 <= j < |ds| && ds[j] == d;
      assert ClampedPod(pd)[i][j] != pd[i][j];
    }
  }

  // What the annotation's characters mean.

  lemma {:induction false} PiecesAppend(a: seq<string>, b: seq<string>)
    requires DecodePieces(a).Done? && DecodePieces(b).Done?
    ensures DecodePieces(a + b) == Done(DecodePieces(a).value + DecodePieces(b).value)
    decreases |b|
  {
    if b == [] {
      assert a + b == a;
      assert DecodePieces(a).value + [] == DecodePieces(a).value;
    } else {
      var front, last := b[..|b| - 1], b[|b| - 1];
      assert (a + b)[..|a + b| - 1] == a + front;
      PiecesAppend(a, front);
      hide DecodeDevice, Split;
      if ',' in last {
        var d := DecodeDevice(Split(last, ',')).value;
        assert DecodePieces(a).value + (DecodePieces(front).value + [d])
            == DecodePieces(a).value + DecodePieces(front).value + [d];
      }
    }
  }

  lemma {:induction false} PartsAppend(a: seq<string>, b: seq<string>)
    requires DecodeAll(a).Done? && DecodeAll(b).Done?
    ensures DecodeAll(a + b) == Done(DecodeAll(a).value + DecodeAll(b).value)
    decreases |b|
  {
    if b == [] {
      assert a + b == a;
      assert DecodeAll(a).value + [] == DecodeAll(a).value;
    } else {
      var front, last := b[..|b| - 1], b[|b| - 1];
      assert (a + b)[..|a + b| - 1] == a + front;
      PartsAppend(a, front);
      hide DecodeContainer;
      var cd := DecodeContainer(last).value;
      assert DecodeAll(a).value + (DecodeAll(front).value + [cd]) == DecodeAll(a).value + DecodeAll(front).value + [cd];
    }
  }

  lemma NoPieces()
    ensures DecodePieces([]) == Done([]) && DecodePieces([""]) == Done([])
    ensures forall x: string :: [x][..0] == []
  {
    assert [""][..0] == [];
  }

  /** Five fields between commas are index, UUID, type, memory and cores; further ones are ignored. */
  lemma DecodesFields(a: string, b: string, c: string, d: string, e: string)
    requires Free(a) && Free(b) && Free(c) && Free(d) && Free(e)
    ensures DecodeContainer(a + "," + b + "," + c + "," + d + "," + e)
         == Done([Device(ParseInt32(a) % 4294967296, b, c, ParseInt32(d), ParseInt32(e))])
  {
    var fields, piece := [a, b, c, d, e], a + "," + b + "," + c + "," + d + "," + e;
    JoinFive(a, b, c, d, e);
    SplitJoin(fields, ',');
    SplitOne(piece, ':');
    OnePiece(piece);
    assert piece[|a|] == ',';
  }

  lemma JoinFive(a: string, b: string, c: string, d: string, e: string)
    ensures Join([a, b, c, d, e], ',') == a + "," + b + "," + c + "," + d + "," + e
  {
    assert Join([d, e], ',') == d + "," + Join([d, e][1..], ',') == d + "," + e;
    assert Join([c, d, e], ',') == c + "," + Join([c, d, e][1..], ',');
    assert Join([b, c, d, e], ',') == b + "," + Join([b, c, d, e][1..], ',');
    assert Join([a, b, c, d, e], ',') == a + "," + Join([a, b, c, d, e][1..], ',');
    assert [a, b, c, d, e][1..] == [b, c, d, e] && [b, c, d, e][1..] == [c, d, e] && [c, d, e][1..] == [d, e];
  }

  lemma OnePiece(piece: string)
    requires ',' in piece && DecodeDevice(Split(piece, ',')).Some?
    ensures DecodePieces([piece]) == Done([DecodeDevice(Split(piece, ',')).value])
  {
    hide DecodeDevice, Split;
    NoPieces();
    var ds: ContainerDevices, d := [], DecodeDevice(Split(piece, ',')).value;
    assert [piece][..0] == [] && ds + [d] == [d];
  }

  /** A colon joins the devices of two pieces, a semicolon starts a further container. */
  lemma DecodesSeparators(x: string, y: string)
    requires ':' !in x && ';' !in x
    ensures DecodePieces([x]).Done? && DecodePieces(Split(y, ':')).Done? ==>
              DecodeContainer(x + ":" + y) == Done(DecodePieces([x]).value + DecodePieces(Split(y, ':')).value)
    ensures DecodeContainer(x).Done? && DecodeAll(Split(y, ';')).Done? ==>
              DecodePod(x + ";" + y) == Done([DecodeContainer(x).value] + DecodeAll(Split(y, ';')).value)
  {
    SplitPrefix(x, ':', y);
    SplitPrefix(x, ';', y);
    hide DecodeContainer, Split;
    if DecodePieces([x]).Done? && DecodePieces(Split(y, ':')).Done? {
      PiecesAppend([x], Split(y, ':'));
    }
    if DecodeContainer(x).Done? && DecodeAll(Split(y, ';')).Done? {
      assert [x][..0] == [];
      var pd: seq<ContainerDevices> := [];
      assert DecodeAll([x]) == Done(pd + [DecodeContainer(x).value]);
      assert pd + [DecodeContainer(x).value] == [DecodeContainer(x).value];
      assert |x + ";" + y| > 0;
      PartsAppend([x], Split(y, ';'));
    }
  }

  lemma {:induction false} JoinLast(xs: seq<string>, sep: char)
    requires xs != []
    ensures Join(xs + [""], sep) == Join(xs, sep) + [sep]
    decreases |xs|
  {
    if |xs| == 1 {
      assert (xs + [""])[1..] == [""];
    } else {
      assert (xs + [""])[1..] == xs[1..] + [""];
      JoinLast(xs[1..], sep);
    }
  }

  /** A colon behind the last device makes no difference, as an empty piece is skipped. */
  lemma TrailingColonIsSkipped(ds: ContainerDevices)
    requires AllRenderable(ds)
    ensures DecodeContainer(RenderContainer(ds) + ":") == DecodeContainer(RenderContainer(ds))
  {
    var pieces := RenderAll(ds);
    ContainerRoundTrip(ds);
    if ds == [] {
      assert RenderContainer(ds) + ":" == ":";
      assert ":"[1..] == "";
      assert Split(":", ':') == [""] + [""];
      NoPieces();
      PiecesAppend([""], [""]);
    } else {
      JoinLast(pieces, ':');
      forall x | x in pieces + [""]
        ensures ':' !in x
      {
        if x in pieces {
          var i :| 0 <= i < |ds| && pieces[i] == x;
          DeviceRoundTrip(ds[i]);
        }
      }
      SplitJoin(pieces + [""], ':');
      PiecesRoundTrip(ds);
      NoPieces();
      PiecesAppend(pieces, [""]);
      assert ClampedAll(ds) + [] == ClampedAll(ds);
    }
  }

  // The map of a pod's devices by UUID.

  function Flat(pd: seq<ContainerDevices>): seq<Device> {
    if pd == [] then [] else Flat(pd[..|pd| - 1]) + pd[|pd| - 1]
  }

  /** The last device with the UUID. */
  function Latest(ds: seq<Device>, uuid: string): Option<Device> {
    if ds == [] then None
    else if ds[|ds| - 1].uuid == uuid then Some(ds[|ds| - 1])
    else Latest(ds[..|ds| - 1], uuid)
  }

  ghost predicate IsDevMap(m: map<string, Device>, ds: seq<Device>) {
    forall u :: if u in m then Latest(ds, u) == Some(m[u]) else Latest(ds, u) == None
  }

  /** GetPodDevMap of a decodable annotation: each UUID leads to the last device that carries it. */
  method GetPodDevMap(annotation: string) returns (r: Outcome<map<string, Device>>)
    ensures match DecodePod(annotation)
            case Done(pd) => r.Done? && IsDevMap(r.value, Flat(pd))
            case Failed => r.Failed?
            case Panicked => r.Panicked?
  {
    var decoded := DecodePodDevices(annotation);
    match decoded {
      case Failed => return Failed;
      case Panicked => return Panicked;
      case Done(pd) =>
        var devMap: map<string, Device> := map[];
        for i := 0 to |pd|
          invariant IsDevMap(devMap, Flat(pd[..i]))
        {
          assert Flat(pd[..i]) + pd[i][..0] == Flat(pd[..i]);
          for j := 0 to |pd[i]|
            invariant IsDevMap(devMap, Flat(pd[..i]) + pd[i][..j])
          {
            var before, d := Flat(pd[..i]) + pd[i][..j], pd[i][j];
            assert Flat(pd[..i]) + pd[i][..j + 1] == before + [d];
            assert (before + [d])[..|before|] == before;
            devMap := devMap[d.uuid := d];
          }
          assert pd[..i + 1][..i] == pd[..i];
          assert pd[i][..|pd[i]|] == pd[i];
        }
        assert pd[..|pd|] == pd;
        return Done(devMap);
    }
  }
}
