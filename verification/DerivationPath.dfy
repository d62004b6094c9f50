/** Hierarchical deterministic wallet paths: the textual form, its parser and its printer. */
module DerivationPath {
  import opened Common

  newtype uint32 = x: int | 0 <= x < 0x1_0000_0000

  /** Bit 31 marks a hardened index (section "Extended keys" of BIP-32). */
  const HARDENED: int := 0x8000_0000

  const DEFAULT_ROOT: seq<uint32> := [0x8000_0000 + 44, 0x8000_0000 + 60, 0x8000_0000, 0]

  datatype Error = EmptyPath | AmbiguousPath | InvalidComponent | OutOfRange

  datatype Result<+T> = Ok(value: T) | Err(error: Error)

  // ---- the string operations the parser relies on ----

  function Split(s: string, sep: char): (r: seq<string>)
    ensures r != []
  {
    if s == [] then [""]
    else
      var rest := Split(s[1..], sep);
      if s[0] == sep then [""] + rest else [[s[0]] + rest[0]] + rest[1..]
  }

  predicate IsSpace(c: char) {
    c in {'\t', '\n', '\U{0B}', '\U{0C}', '\r', ' ', '\U{85}', '\U{A0}', '\U{1680}', '\U{2028}', '\U{2029}',
        '\U{202F}', '\U{205F}', '\U{3000}'}
    || '\U{2000}' <= c <= '\U{200A}'
  }

  function TrimLeft(s: string): string { if s != [] && IsSpace(s[0]) then TrimLeft(s[1..]) else s }

  function TrimRight(s: string): string { if s != [] && IsSpace(s[|s| - 1]) then TrimRight(s[..|s| - 1]) else s }

  function TrimSpace(s: string): string { TrimRight(TrimLeft(s)) }

  predicate HasQuote(s: string) { s != [] && s[|s| - 1] == '\'' }

  function DigitValue(c: char): nat {
    if '0' <= c <= '9' then (c - '0') as nat
    else if 'a' <= c <= 'z' then (c - 'a') as nat + 10
    else if 'A' <= c <= 'Z' then (c - 'A') as nat + 10
    else 64
  }

  /** What the number scanner saw last: a separator may only follow a digit. */
  datatype Seen = Nothing | Digit | Separator

  function ScanDigits(s: string, base: nat, acc: nat, count: nat, seen: Seen): Option<nat> {
    if s == [] then (if seen == Separator || count == 0 then None else Some(acc))
    else if s[0] == '_' then (if seen == Digit then ScanDigits(s[1..], base, acc, count, Separator) else None)
    else if DigitValue(s[0]) < base then ScanDigits(s[1..], base, acc * base + DigitValue(s[0]), count + 1, Digit)
    else None
  }

  /** An unsigned number whose base is given by its prefix: 0b, 0o, 0x, a leading zero for octal, or decimal. */
  function ScanNat(s: string): Option<nat> {
    if s != [] && s[0] == '0' then
      if |s| == 1 then Some(0)
      else if s[1] in {'b', 'B'} then ScanDigits(s[2..], 2, 0, 0, Digit)
      else if s[1] in {'o', 'O'} then ScanDigits(s[2..], 8, 0, 0, Digit)
      else if s[1] in {'x', 'X'} then ScanDigits(s[2..], 16, 0, 0, Digit)
      else ScanDigits(s[1..], 8, 0, 0, Digit)
    else ScanDigits(s, 10, 0, 0, Nothing)
  }

  function ScanInt(s: string): Option<int> {
    if s != [] && s[0] in {'+', '-'} then
      match ScanNat(s[1..])
      case None => None
      case Some(v) => Some(if s[0] == '-' then 0 - v as int else v as int)
    else
      match ScanNat(s) case None => None case Some(v) => Some(v)
  }

  /** One component, with a trailing quote for a hardened index. */
  function ParseComponent(s: string): Result<uint32> {
    var t := TrimSpace(s);
    var value := if HasQuote(t) then HARDENED else 0;
    var digits := if HasQuote(t) then TrimSpace(t[..|t| - 1]) else t;
    match ScanInt(digits)
    case None => Err(InvalidComponent)
    case Some(v) => if v < 0 || v > 0xFFFF_FFFF - value then Err(OutOfRange) else Ok((value + v) as uint32)
  }

  function ParseComponents(cs: seq<string>): Result<seq<uint32>> {
    if cs == [] then Ok([])
    else match ParseComponents(cs[..|cs| - 1])
      case Err(e) => Err(e)
      case Ok(p) =>
        match ParseComponent(cs[|cs| - 1])
        case Err(e) => Err(e)
        case Ok(v) => Ok(p + [v])
  }

  /** The meaning of a path text: absolute after "m", otherwise below the default root. */
  function Parsed(path: string): Result<seq<uint32>> {
    var components := Split(path, '/');
    var head := TrimSpace(components[0]);
    if head == "" then Err(AmbiguousPath)
    else if head == "m" then (if |components| == 1 then Err(EmptyPath) else ParseComponents(components[1..]))
    else match ParseComponents(components) case Err(e) => Err(e) case Ok(p) => Ok(DEFAULT_ROOT + p)
  }

  lemma {:induction false} ParseComponentsErr(cs: seq<string>, i: nat)
    requires i < |cs|
    requires match ParseComponents(cs[..i]) case Err(_) => true case Ok(_) => ParseComponent(cs[i]).Err?
    ensures ParseComponents(cs[..i]).Ok? ==> ParseComponents(cs) == Err(ParseComponent(cs[i]).error)
    ensures ParseComponents(cs[..i]).Err? ==> ParseComponents(cs) == Err(ParseComponents(cs[..i]).error)
    decreases |cs|
  {
    hide ParseComponent;
    if i < |cs| - 1 {
      assert cs[..|cs| - 1][..i] == cs[..i];
      ParseComponentsErr(cs[..|cs| - 1], i);
    }
  }

  // ---- what a component text means ----

  ghost predicate AllSpace(s: string) { forall i :: 0 <= i < |s| ==> IsSpace(s[i]) }

  /** The text is the number v, with a quote behind it if hardened, and any white space around both. */
  ghost predicate Spells(text: string, hardened: bool, v: int) {
    exists left, digits, gap, right :: SpelledBy(text, hardened, v, left, digits, gap, right)
  }

  ghost predicate SpelledBy(text: string, hardened: bool, v: int, left: string, digits: string, gap: string,
                            right: string) {
    && AllSpace(left) && AllSpace(gap) && AllSpace(right) && ScanInt(digits) == Some(v)
    && text == left + (digits + if hardened then gap + "'" else "") + right
  }

  /** The largest index a component can name. */
  function MaxIndex(hardened: bool): int { 0xFFFF_FFFF - if hardened then HARDENED else 0 }

  lemma {:induction false} ScanChars(s: string, base: nat, acc: nat, count: nat, seen: Seen)
    requires ScanDigits(s, base, acc, count, seen).Some? && base <= 16
    ensures forall i :: 0 <= i < |s| ==> NumberChar(s[i])
    decreases |s|
  {
    if s != [] {
      if s[0] == '_' {
        ScanChars(s[1..], base, acc, count, Separator);
      } else {
        ScanChars(s[1..], base, acc * base + DigitValue(s[0]), count + 1, Digit);
      }
      assert s == [s[0]] + s[1..];
    }
  }

  /** The white space of Unicode, by code point. */
  lemma SpaceIs(c: char)
    ensures IsSpace(c)
       <==> c as int in {9, 10, 11, 12, 13, 32, 133, 160, 5760, 8232, 8233, 8239, 8287, 12288}
            || 8192 <= c as int <= 8202
  {
  }

  /** A character that can occur in a number. */
  predicate NumberChar(c: char) { c == '_' || DigitValue(c) < 36 }

  lemma NumberCharTight(c: char)
    requires NumberChar(c)
    ensures !IsSpace(c) && c != '\''
  {
  }

  lemma {:induction false} ScanNatChars(s: string)
    requires ScanNat(s).Some?
    ensures s != [] && forall i :: 0 <= i < |s| ==> NumberChar(s[i])
  {
    hide IsSpace;
    if s != [] && s[0] == '0' && |s| > 1 {
      if s[1] in {'b', 'B', 'o', 'O', 'x', 'X'} {
        ScanChars(s[2..], if s[1] in {'b', 'B'} then 2 else if s[1] in {'o', 'O'} then 8 else 16, 0, 0, Digit);
        assert s == [s[0], s[1]] + s[2..];
      } else {
        ScanChars(s[1..], 8, 0, 0, Digit);
        assert s == [s[0]] + s[1..];
      }
    } else if s != [] && s[0] != '0' {
      ScanChars(s, 10, 0, 0, Nothing);
    }
  }

  /** A number text has no white space and no quote in it. */
  lemma ScanTight(s: string)
    requires ScanInt(s).Some?
    ensures s != [] && forall i :: 0 <= i < |s| ==> !IsSpace(s[i]) && s[i] != '\''
  {
    hide NumberChar, ScanNat;
    if s != [] && s[0] in {'+', '-'} {
      ScanNatChars(s[1..]);
      forall i | 0 < i < |s| ensures NumberChar(s[i]) { assert s[i] == s[1..][i - 1]; }
    } else {
      ScanNatChars(s);
    }
    forall i | 0 <= i < |s| && NumberChar(s[i]) ensures !IsSpace(s[i]) && s[i] != '\'' { NumberCharTight(s[i]); }
  }

  lemma {:induction false} TrimLeftOf(left: string, s: string)
    requires AllSpace(left) && (s == [] || !IsSpace(s[0]))
    ensures TrimLeft(left + s) == s
    decreases |left|
  {
    if left == [] {
      assert left + s == s;
    } else {
      assert (left + s)[1..] == left[1..] + s;
      TrimLeftOf(left[1..], s);
    }
  }

  lemma {:induction false} TrimRightOf(s: string, right: string)
    requires AllSpace(right) && (s == [] || !IsSpace(s[|s| - 1]))
    ensures TrimRight(s + right) == s
    decreases |right|
  {
    if right == [] {
      assert s + right == s;
    } else {
      assert (s + right)[..|s + right| - 1] == s + right[..|right| - 1];
      TrimRightOf(s, right[..|right| - 1]);
    }
  }

  /** Trimming takes off exactly the white space around a text that neither starts nor ends with any. */
  lemma TrimOf(left: string, s: string, right: string)
    requires AllSpace(left) && AllSpace(right) && s != [] && !IsSpace(s[0]) && !IsSpace(s[|s| - 1])
    ensures TrimSpace(left + s + right) == s
  {
    assert left + s + right == left + (s + right);
    TrimLeftOf(left, s + right);
    TrimRightOf(s, right);
  }

  lemma {:induction false} TrimLeftSplit(s: string) returns (left: string)
    ensures AllSpace(left) && s == left + TrimLeft(s)
    decreases |s|
  {
    if s != [] && IsSpace(s[0]) {
      hide IsSpace;
      var rest := TrimLeftSplit(s[1..]);
      left := [s[0]] + rest;
      assert s == [s[0]] + s[1..];
    } else {
      left := [];
    }
  }

  lemma {:induction false} TrimRightSplit(s: string) returns (right: string)
    ensures AllSpace(right) && s == TrimRight(s) + right
    decreases |s|
  {
    if s != [] && IsSpace(s[|s| - 1]) {
      hide IsSpace;
      var rest := TrimRightSplit(s[..|s| - 1]);
      right := rest + [s[|s| - 1]];
      assert s == s[..|s| - 1] + [s[|s| - 1]];
    } else {
      right := [];
    }
  }

  lemma TrimSplit(s: string) returns (left: string, right: string)
    ensures AllSpace(left) && AllSpace(right) && s == left + TrimSpace(s) + right
  {
    left := TrimLeftSplit(s);
    right := TrimRightSplit(TrimLeft(s));
  }

  /** A spelled text is read as the number it spells. */
  lemma SpellsReads(text: string, hardened: bool, v: int)
    requires Spells(text, hardened, v)
    ensures ParseComponent(text)
            == if 0 <= v <= MaxIndex(hardened) then Ok((v + if hardened then HARDENED else 0) as uint32)
            else Err(OutOfRange)
  {
    hide TrimSpace, ScanInt;
    var left, digits, gap, right :| SpelledBy(text, hardened, v, left, digits, gap, right);
    ScanTight(digits);
    var core := digits + if hardened then gap + "'" else "";
    TrimOf(left, core, right);
    if hardened {
      assert core[..|core| - 1] == [] + digits + gap;
      TrimOf([], digits, gap);
    } else {
      assert core == digits;
    }
  }

  /** A text that is read as a number, in range or not, spells it. */
  lemma ReadsSpells(text: string) returns (hardened: bool, v: int)
    requires ParseComponent(text) != Err(InvalidComponent)
    ensures Spells(text, hardened, v)
  {
    hide TrimSpace, ScanInt;
    var t := TrimSpace(text);
    var left, right := TrimSplit(text);
    hardened := HasQuote(t);
    if hardened {
      var front, gap := TrimSplit(t[..|t| - 1]);
      var digits := TrimSpace(t[..|t| - 1]);
      v := ScanInt(digits).value;
      assert t == front + digits + gap + "'";
      assert text == (left + front) + (digits + (gap + "'")) + right;
      assert SpelledBy(text, true, v, left + front, digits, gap, right);
    } else {
      v := ScanInt(t).value;
      assert SpelledBy(text, false, v, left, t, "", right);
    }
  }

  /** What reading a component means: it gives an index exactly when the text spells a number in range, plain or
      hardened; a number out of range is an error of its own; anything else is invalid. */
  lemma ComponentMeaning(text: string, c: uint32)
    ensures ParseComponent(text) == Ok(c) <==>
            exists hardened, v :: Spells(text, hardened, v) && 0 <= v <= MaxIndex(hardened)
                                  && c as int == v + if hardened then HARDENED else 0
    ensures ParseComponent(text) == Err(OutOfRange)
            <==> exists hardened, v :: Spells(text, hardened, v) && !(0 <= v <= MaxIndex(hardened))
    ensures ParseComponent(text) == Err(InvalidComponent) <==> forall hardened, v :: !Spells(text, hardened, v)
  {
    hide ParseComponent, Spells;
    forall hardened, v | Spells(text, hardened, v)
      ensures ParseComponent(text)
              == if 0 <= v <= MaxIndex(hardened) then Ok((v + if hardened then HARDENED else 0) as uint32)
              else Err(OutOfRange)
    {
      SpellsReads(text, hardened, v);
    }
    if ParseComponent(text) != Err(InvalidComponent) {
      var hardened, v := ReadsSpells(text);
      assert Spells(text, hardened, v);
    }
  }

  /** The body of the parser's loop. */
  method ReadComponent(text: string) returns (r: Result<uint32>)
    ensures r == ParseComponent(text)
  {
    hide TrimSpace, ScanInt;
    var component := TrimSpace(text);
    var value := 0;
    if HasQuote(component) {
      value := HARDENED;
      component := TrimSpace(component[..|component| - 1]);
    }
    var bigval := ScanInt(component);
    if bigval.None? { return Err(InvalidComponent); }
    var max := 0xFFFF_FFFF - value;
    if bigval.value < 0 || bigval.value > max { return Err(OutOfRange); }
    value := value + bigval.value;
    r := Ok(value as uint32);
  }

  method ParseDerivationPath(path: string) returns (r: Result<seq<uint32>>)
    ensures r == Parsed(path)
  {
    hide TrimSpace, ParseComponent, Split;
    var result: seq<uint32> := [];
    var components := Split(path, '/');
    if TrimSpace(components[0]) == "" {
      return Err(AmbiguousPath);
    } else if TrimSpace(components[0]) == "m" {
      components := components[1..];
    } else {
      result := result + DEFAULT_ROOT;
      assert result == DEFAULT_ROOT;
    }
    if |components| == 0 { return Err(EmptyPath); }
    ghost var root := result;
    for i := 0 to |components|
      invariant ParseComponents(components[..i]).Ok? && result == root + ParseComponents(components[..i]).value
    {
      assert components[..i + 1][..i] == components[..i];
      var value := ReadComponent(components[i]);
      if value.Err? {
        ParseComponentsErr(components, i);
        return Err(value.error);
      }
      result := result + [value.value];
    }
    assert components[..|components|] == components;
    assert [] + ParseComponents(components).value == ParseComponents(components).value;
    r := Ok(result);
  }

  function Decimal(n: nat): (s: string)
    ensures s != []
  {
    if n < 10 then [('0' as int + n) as char] else Decimal(n / 10) + [('0' as int + n % 10) as char]
  }

  function PrintComponent(c: uint32): string {
    if c as int >= HARDENED then Decimal(c as int - HARDENED) + "'" else Decimal(c as int)
  }

  function Printed(path: seq<uint32>): string {
    if path == [] then "m" else Printed(path[..|path| - 1]) + "/" + PrintComponent(path[|path| - 1])
  }

  method ToString(path: seq<uint32>) returns (result: string)
    ensures result == Printed(path)
  {
    result := "m";
    for i := 0 to |path|
      invariant result == Printed(path[..i])
    {
      var component, hardened := path[i], false;
      if component as int >= HARDENED {
        component := component - 0x8000_0000;
        hardened := true;
      }
      assert path[..i + 1][..i] == path[..i];
      result := result + "/" + Decimal(component as int);
      if hardened { result := result + "'"; }
      assert result == Printed(path[..i]) + "/" + PrintComponent(path[i]);
    }
    assert path[..|path|] == path;
  }

  // ---- parsing what was printed ----

  lemma {:induction false} SplitLast(a: string, b: string, sep: char)
    requires sep !in b
    ensures Split(a + [sep] + b, sep) == Split(a, sep) + [b]
  {
    var s := a + [sep] + b;
    if a == [] {
      assert s[1..] == b;
      SplitNone(b, sep);
    } else {
      SplitLast(a[1..], b, sep);
      assert s[1..] == a[1..] + [sep] + b;
    }
  }

  lemma {:induction false} SplitNone(b: string, sep: char)
    requires sep !in b
    ensures Split(b, sep) == [b]
  {
    if b != [] {
      SplitNone(b[1..], sep);
      assert b == [b[0]] + b[1..];
    }
  }

  ghost predicate AllDigits(s: string) { forall i :: 0 <= i < |s| ==> '0' <= s[i] <= '9' }

  lemma {:induction false} DecimalDigits(n: nat)
    ensures AllDigits(Decimal(n))
    ensures Decimal(n)[0] == '0' ==> n == 0 && Decimal(n) == "0"
  {
    if n >= 10 { DecimalDigits(n / 10); }
  }

  ghost function Value(s: string, acc: nat): nat {
    if s == [] then acc else Value(s[..|s| - 1], acc) * 10 + DigitValue(s[|s| - 1])
  }

  lemma {:induction false} ValueFront(s: string, acc: nat)
    requires s != []
    ensures Value(s, acc) == Value(s[1..], acc * 10 + DigitValue(s[0]))
  {
    if |s| > 1 {
      ValueFront(s[..|s| - 1], acc);
      assert s[..|s| - 1][1..] == s[1..][..|s| - 2];
    }
  }

  lemma {:induction false} ScanValue(s: string, acc: nat, count: nat, seen: Seen)
    requires AllDigits(s) && (s == [] ==> count > 0 && seen == Digit)
    ensures ScanDigits(s, 10, acc, count, seen) == Some(Value(s, acc))
  {
    if s != [] {
      ValueFront(s, acc);
      ScanValue(s[1..], acc * 10 + DigitValue(s[0]), count + 1, Digit);
    }
  }

  lemma {:induction false} DecimalValue(n: nat)
    ensures Value(Decimal(n), 0) == n
  {
    if n < 10 {
      assert Decimal(n)[..0] == [];
    } else {
      DecimalValue(n / 10);
      var s := Decimal(n);
      assert s[..|s| - 1] == Decimal(n / 10);
    }
  }

  lemma ScanDecimal(n: nat)
    ensures ScanInt(Decimal(n)) == Some(n)
  {
    DecimalDigits(n);
    if n > 0 {
      ScanValue(Decimal(n), 0, 0, Nothing);
      DecimalValue(n);
    }
  }

  lemma NoTrim(s: string)
    requires s != [] && !IsSpace(s[0]) && !IsSpace(s[|s| - 1])
    ensures TrimSpace(s) == s
  {
  }

  /** A printed component holds no separator and parses back to itself. */
  lemma ComponentRoundTrip(c: uint32)
    ensures ParseComponent(PrintComponent(c)) == Ok(c)
    ensures '/' !in PrintComponent(c)
  {
    var n := if c as int >= HARDENED then c as int - HARDENED else c as int;
    var d := Decimal(n);
    DecimalDigits(n);
    ScanDecimal(n);
    NoTrim(d);
    NoTrim(PrintComponent(c));
    if c as int >= HARDENED { assert PrintComponent(c)[..|d|] == d; }
  }

  lemma {:induction false} SplitPrinted(path: seq<uint32>)
    ensures Split(Printed(path), '/') == ["m"] + seq(|path|, i requires 0 <= i < |path| => PrintComponent(path[i]))
  {
    hide PrintComponent, Split, ParseComponent;
    if path == [] {
      SplitNone("m", '/');
    } else {
      var front := path[..|path| - 1];
      SplitPrinted(front);
      ComponentRoundTrip(path[|path| - 1]);
      SplitLast(Printed(front), PrintComponent(path[|path| - 1]), '/');
    }
  }

  lemma {:induction false} ComponentsRoundTrip(path: seq<uint32>)
    ensures ParseComponents(seq(|path|, i requires 0 <= i < |path| => PrintComponent(path[i]))) == Ok(path)
  {
    hide PrintComponent, ParseComponent;
    if path != [] {
      var front, cs := path[..|path| - 1], seq(|path|, i requires 0 <= i < |path| => PrintComponent(path[i]));
      ComponentsRoundTrip(front);
      ComponentRoundTrip(path[|path| - 1]);
      assert cs[..|cs| - 1] == seq(|front|, i requires 0 <= i < |front| => PrintComponent(front[i]));
      assert path == front + [path[|path| - 1]];
    }
  }

  /** Parsing the printed form of a path gives the path back; only the empty path has no parsable form. */
  lemma RoundTrip(path: seq<uint32>)
    ensures Parsed(Printed(path)) == if path == [] then Err(EmptyPath) else Ok(path)
  {
    SplitPrinted(path);
    ComponentsRoundTrip(path);
    NoTrim("m");
    var components := Split(Printed(path), '/');
    assert components[1..] == seq(|path|, i requires 0 <= i < |path| => PrintComponent(path[i]));
  }

  lemma {:induction false} ParsedLength(cs: seq<string>)
    requires ParseComponents(cs).Ok?
    ensures |ParseComponents(cs).value| == |cs|
  {
    if cs != [] { ParsedLength(cs[..|cs| - 1]); }
  }

  /** Printing whatever was parsed and parsing it again changes nothing. */
  lemma ParsePrintParse(text: string)
    requires Parsed(text).Ok?
    ensures Parsed(Printed(Parsed(text).value)) == Parsed(text)
  {
    var components := Split(text, '/');
    if TrimSpace(components[0]) == "m" { ParsedLength(components[1..]); } else { ParsedLength(components); }
    RoundTrip(Parsed(text).value);
  }

  // ---- what a path text means ----

  /** Splitting at a separator splits the two sides. */
  lemma {:induction false} SplitConcat(a: string, b: string, sep: char)
    ensures Split(a + [sep] + b, sep) == Split(a, sep) + Split(b, sep)
  {
    var s := a + [sep] + b;
    if a == [] {
      assert s[1..] == b;
    } else {
      SplitConcat(a[1..], b, sep);
      assert s[0] == a[0] && s[1..] == a[1..] + [sep] + b;
      SplitHead(a[0], Split(a[1..], sep), Split(b, sep), sep);
    }
  }

  lemma SplitHead(x: char, rest: seq<string>, more: seq<string>, sep: char)
    requires rest != []
    ensures [""] + (rest + more) == [""] + rest + more
    ensures [[x] + (rest + more)[0]] + (rest + more)[1..] == ([[x] + rest[0]] + rest[1..]) + more
  {
  }

  ghost function Joined(cs: seq<string>, sep: char): string
    requires cs != []
  {
    if |cs| == 1 then cs[0] else Joined(cs[..|cs| - 1], sep) + [sep] + cs[|cs| - 1]
  }

  /** The components are the one way to write the text as pieces without the separator. */
  lemma {:induction false} SplitExactly(s: string, cs: seq<string>, sep: char)
    requires cs != []
    ensures Split(s, sep) == cs <==> Joined(cs, sep) == s && forall c :: c in cs ==> sep !in c
  {
    if Joined(cs, sep) == s && forall c :: c in cs ==> sep !in c { SplitJoined(cs, sep); }
    SplitJoins(s, sep);
  }

  lemma {:induction false} SplitJoined(cs: seq<string>, sep: char)
    requires cs != [] && forall c :: c in cs ==> sep !in c
    ensures Split(Joined(cs, sep), sep) == cs
  {
    if |cs| == 1 {
      SplitNone(cs[0], sep);
    } else {
      var front := cs[..|cs| - 1];
      assert forall c :: c in front ==> c in cs;
      SplitJoined(front, sep);
      SplitLast(Joined(front, sep), cs[|cs| - 1], sep);
    }
  }

  lemma {:induction false} SplitJoins(s: string, sep: char)
    ensures Joined(Split(s, sep), sep) == s && forall c :: c in Split(s, sep) ==> sep !in c
  {
    if s != [] {
      SplitJoins(s[1..], sep);
      var rest := Split(s[1..], sep);
      if s[0] == sep {
        JoinedFirst("", rest, sep);
      } else {
        JoinedLonger(s[0], rest, sep);
      }
      assert s == [s[0]] + s[1..];
    }
  }

  lemma {:induction false} JoinedFirst(c: string, cs: seq<string>, sep: char)
    requires cs != []
    ensures Joined([c] + cs, sep) == c + [sep] + Joined(cs, sep)
    decreases |cs|
  {
    var all := [c] + cs;
    if |cs| > 1 {
      JoinedFirst(c, cs[..|cs| - 1], sep);
      assert all[..|all| - 1] == [c] + cs[..|cs| - 1];
    }
  }

  lemma {:induction false} JoinedLonger(x: char, cs: seq<string>, sep: char)
    requires cs != []
    ensures Joined([[x] + cs[0]] + cs[1..], sep) == [x] + Joined(cs, sep)
    decreases |cs|
  {
    var all := [[x] + cs[0]] + cs[1..];
    if |cs| > 1 {
      var front := cs[..|cs| - 1];
      JoinedLonger(x, front, sep);
      assert all[..|all| - 1] == [[x] + front[0]] + front[1..];
    }
  }

  /** The text names the index: it is a number, which a quote behind it raises by 2^31. */
  ghost predicate Names(text: string, c: uint32) {
    exists hardened, v :: Spells(text, hardened, v) && 0 <= v && v + (if hardened then 0x8000_0000 else 0) == c as int
  }

  lemma NamesIs(text: string, c: uint32)
    ensures ParseComponent(text) == Ok(c) <==> Names(text, c)
  {
    hide ParseComponent, Spells;
    ComponentMeaning(text, c);
  }

  ghost predicate AllNamed(cs: seq<string>, p: seq<uint32>) {
    |cs| == |p| && forall i :: 0 <= i < |cs| ==> Names(cs[i], p[i])
  }

  lemma {:induction false} ComponentsMeaning(cs: seq<string>, p: seq<uint32>)
    ensures ParseComponents(cs) == Ok(p) <==> AllNamed(cs, p)
    decreases |cs|
  {
    hide ParseComponent, Names;
    if cs != [] && p != [] {
      var n := |cs| - 1;
      ComponentsMeaning(cs[..n], p[..|p| - 1]);
      NamesIs(cs[n], p[|p| - 1]);
      assert p == p[..|p| - 1] + [p[|p| - 1]];
    } else if cs == [] {
      assert AllNamed(cs, p) <==> p == [];
    }
  }

  /** What parsing a path means: its components are named one by one, after "m" or below m/44'/60'/0'/0. */
  lemma PathMeaning(text: string, p: seq<uint32>)
    ensures var cs := Split(text, '/');
            Parsed(text) == Ok(p) <==>
            (|cs| > 1 && TrimSpace(cs[0]) == "m" && AllNamed(cs[1..], p))
            || (TrimSpace(cs[0]) !in {"", "m"} && |p| >= 4 && AllNamed(cs, p[4..])
                && p[..4] == [0x8000_002C, 0x8000_003C, 0x8000_0000, 0])
  {
    hide TrimSpace, Split, AllNamed;
    var cs := Split(text, '/');
    ComponentsMeaning(cs[1..], p);
    if |p| >= 4 { ComponentsMeaning(cs, p[4..]); }
    assert |p| >= 4 ==> p == p[..4] + p[4..];
    forall q: seq<uint32> ensures (DEFAULT_ROOT + q)[4..] == q && (DEFAULT_ROOT + q)[..4] == DEFAULT_ROOT {}
  }

  /** A path fails as ambiguous, as empty, or with the error of its first bad component. */
  lemma PathErrors(text: string, i: nat)
    ensures Parsed(text) == Err(AmbiguousPath) <==> AllSpace(Split(text, '/')[0])
    ensures Parsed(text) == Err(EmptyPath) <==> |Split(text, '/')| == 1 && TrimSpace(Split(text, '/')[0]) == "m"
    ensures var cs := Split(text, '/');
            var first := if TrimSpace(cs[0]) == "m" then 1 else 0;
            TrimSpace(cs[0]) != "" && first <= i < |cs| && ParseComponent(cs[i]).Err?
            && (forall j :: first <= j < i ==> ParseComponent(cs[j]).Ok?)
            ==> Parsed(text) == Err(ParseComponent(cs[i]).error)
  {
    hide ParseComponent, Split, TrimSpace;
    var cs := Split(text, '/');
    TrimNothing(cs[0]);
    ComponentErrors(cs);
    ComponentErrors(cs[1..]);
    if i < |cs| && ParseComponent(cs[i]).Err? {
      if forall j :: 0 <= j < i ==> ParseComponent(cs[j]).Ok? { FirstFails(cs, i); }
      if i > 0 && (forall j :: 1 <= j < i ==> ParseComponent(cs[j]).Ok?) { FirstFails(cs[1..], i - 1); }
    }
  }

  lemma TrimNothing(s: string)
    ensures TrimSpace(s) == "" <==> AllSpace(s)
  {
    hide IsSpace;
    var left, right := TrimSplit(s);
    if AllSpace(s) { TrimAll(s); }
  }

  lemma {:induction false} TrimAll(s: string)
    requires AllSpace(s)
    ensures TrimLeft(s) == ""
  {
    hide IsSpace;
    if s != "" { TrimAll(s[1..]); }
  }

  lemma {:induction false} ComponentErrors(cs: seq<string>)
    ensures ParseComponents(cs).Err? ==> ParseComponents(cs).error in {InvalidComponent, OutOfRange}
  {
    hide TrimSpace, ScanInt;
    if cs != [] { ComponentErrors(cs[..|cs| - 1]); }
  }

  lemma {:induction false} FirstFails(cs: seq<string>, i: nat)
    requires i < |cs| && ParseComponent(cs[i]).Err? && forall j :: 0 <= j < i ==> ParseComponent(cs[j]).Ok?
    ensures ParseComponents(cs) == Err(ParseComponent(cs[i]).error)
  {
    hide ParseComponent;
    AllParse(cs[..i]);
    ParseComponentsErr(cs, i);
  }

  lemma {:induction false} AllParse(cs: seq<string>)
    requires forall j :: 0 <= j < |cs| ==> ParseComponent(cs[j]).Ok?
    ensures ParseComponents(cs).Ok?
  {
    hide ParseComponent;
    if cs != [] { AllParse(cs[..|cs| - 1]); }
  }

  lemma {:induction false} ParseConcat(a: seq<string>, b: seq<string>)
    requires ParseComponents(a).Ok?
    ensures ParseComponents(a + b)
         == match ParseComponents(b) case Err(e) => Err(e) case Ok(p) => Ok(ParseComponents(a).value + p)
    decreases |b|
  {
    hide ParseComponent;
    if b == [] {
      assert a + b == a && ParseComponents(a).value + [] == ParseComponents(a).value;
    } else {
      ParseConcat(a, b[..|b| - 1]);
      assert (a + b)[..|a + b| - 1] == a + b[..|b| - 1] && (a + b)[|a + b| - 1] == b[|b| - 1];
      if ParseComponents(b).Ok? {
        var p := ParseComponents(b[..|b| - 1]).value;
        var v := ParseComponent(b[|b| - 1]).value;
        assert (ParseComponents(a).value + p) + [v] == ParseComponents(a).value + (p + [v]);
      }
    }
  }

  lemma DefaultPrinted()
    ensures Printed(DEFAULT_ROOT) == "m/44'/60'/0'/0"
  {
    assert Decimal(44) == "44" && Decimal(60) == "60" && Decimal(0) == "0";
    var r := DEFAULT_ROOT;
    assert r[..3][..2][..1] == [r[0]] && r[..3][..2] == [r[0], r[1]] && r[..3] == [r[0], r[1], r[2]];
    assert Printed([r[0]]) == "m/44'";
    assert Printed([r[0], r[1]]) == "m/44'/60'";
    assert Printed(r[..3]) == "m/44'/60'/0'";
  }

  /** A relative text gives the path that the same text gives behind the default root, or the same error. */
  lemma RelativePath(text: string)
    requires TrimSpace(Split(text, '/')[0]) !in {"", "m"}
    ensures Parsed(text) == Parsed("m/44'/60'/0'/0/" + text)
  {
    hide TrimSpace, Split, ParseComponent;
    DefaultPrinted();
    SplitPrinted(DEFAULT_ROOT);
    ComponentsRoundTrip(DEFAULT_ROOT);
    var root, cs := "m/44'/60'/0'/0", Split(text, '/');
    SplitConcat(root, text, '/');
    assert root + ['/'] + text == "m/44'/60'/0'/0/" + text;
    var rs := Split(root, '/');
    ParseConcat(rs[1..], cs);
    assert (rs + cs)[1..] == rs[1..] + cs;
    assert TrimSpace("m") == "m" by { NoTrim("m"); }
  }

  // ---- what a number text means ----

  ghost predicate Denotes(c: char, d: nat) {
    d < 16 && (c == "0123456789abcdef"[d] || c == "0123456789ABCDEF"[d])
  }

  lemma DigitIs(c: char, base: nat, d: nat)
    requires base in {2, 8, 10, 16}
    ensures DigitValue(c) == d < base <==> Denotes(c, d) && d < base
    ensures !Denotes('_', d)
  {
  }

  /** The text writes v down in digits of the base, most significant first. A single underscore may stand between two
      digits, and before the first one if lead. */
  ghost predicate Numeral(s: string, base: nat, lead: bool, v: nat)
    requires base > 1
    decreases |s|
  {
    && s != [] && Denotes(s[|s| - 1], v % base)
    && var front := s[..|s| - 1];
    || (v < base && (front == "" || (front == "_" && lead)))
    || Numeral(front, base, lead, v / base)
    || (front != "" && front[|front| - 1] == '_' && Numeral(front[..|front| - 1], base, lead, v / base))
  }

  /** What the scanner knows after some characters. */
  datatype ScanState = Rejected | Scanned(acc: nat, count: nat, seen: Seen)

  function ScanStep(st: ScanState, c: char, base: nat): ScanState {
    if st.Rejected? then st
    else if c == '_' then (if st.seen == Digit then st.(seen := Separator) else Rejected)
    else if DigitValue(c) < base then Scanned(st.acc * base + DigitValue(c), st.count + 1, Digit)
    else Rejected
  }

  ghost function ScanAll(s: string, base: nat, st: ScanState): ScanState {
    if s == [] then st else ScanStep(ScanAll(s[..|s| - 1], base, st), s[|s| - 1], base)
  }

  lemma {:induction false} ScanAllFront(s: string, base: nat, st: ScanState)
    requires s != []
    ensures ScanAll(s, base, st) == ScanAll(s[1..], base, ScanStep(st, s[0], base))
  {
    hide ScanStep;
    if |s| > 1 {
      ScanAllFront(s[..|s| - 1], base, st);
      assert s[..|s| - 1][1..] == s[1..][..|s| - 2];
    } else {
      assert s[..0] == [] && s[1..] == [];
    }
  }

  lemma {:induction false} ScanRejected(s: string, base: nat)
    ensures ScanAll(s, base, Rejected) == Rejected
  {
    if s != [] { ScanRejected(s[..|s| - 1], base); }
  }

  lemma {:induction false} ScanDigitsIs(s: string, base: nat, st: ScanState)
    requires st.Scanned?
    ensures var end := ScanAll(s, base, st);
            ScanDigits(s, base, st.acc, st.count, st.seen)
            == if end.Scanned? && end.seen != Separator && end.count > 0 then Some(end.acc) else None
    decreases |s|
  {
    if s != [] {
      ScanAllFront(s, base, st);
      var next := ScanStep(st, s[0], base);
      if next.Scanned? { ScanDigitsIs(s[1..], base, next); } else { ScanRejected(s[1..], base); }
    }
  }

  ghost function Started(lead: bool): ScanState { Scanned(0, 0, if lead then Digit else Nothing) }

  /** The scanner has just read a number, and it is v. */
  ghost predicate ReadTo(st: ScanState, v: nat) { st.Scanned? && st.seen == Digit && st.count > 0 && st.acc == v }

  lemma DivMod(u: nat, d: nat, base: nat, v: nat)
    requires base in {2, 8, 10, 16} && d < base
    ensures v == u * base + d <==> v / base == u && v % base == d
  {
  }

  /** Past the first character, having seen a digit last means having read a number. */
  lemma SeenDigit(s: string, base: nat, st: ScanState)
    requires s != []
    ensures var end := ScanAll(s, base, st);
            end.Scanned? && end.seen != Separator ==> ReadTo(end, end.acc) && s[|s| - 1] != '_'
    ensures ScanAll(s, base, st).Scanned? && ScanAll(s, base, st).seen == Separator ==> s[|s| - 1] == '_'
  {
  }

  lemma {:induction false} NumeralIs(s: string, base: nat, lead: bool, v: nat)
    requires base in {2, 8, 10, 16}
    ensures ReadTo(ScanAll(s, base, Started(lead)), v) <==> Numeral(s, base, lead, v)
    decreases |s|
  {
    hide Denotes, DigitValue;
    if s != [] {
      var st, front, c := Started(lead), s[..|s| - 1], s[|s| - 1];
      DigitIs(c, base, v % base);
      NumeralIs(front, base, lead, v / base);
      StepReads(ScanAll(front, base, st), c, base, v);
      hide ScanStep, DigitValue, ReadTo;
      if front != "" {
        var g := front[..|front| - 1];
        NumeralIs(g, base, lead, v / base);
        BeforeDigit(front, base, lead, v / base);
      }
    }
  }

  /** A digit read after something acceptable adds itself to the number. */
  lemma StepReads(st: ScanState, c: char, base: nat, v: nat)
    requires base in {2, 8, 10, 16}
    ensures ReadTo(ScanStep(st, c, base), v)
       <==> st.Scanned? && c != '_' && DigitValue(c) == v % base && st.acc == v / base
  {
    hide DigitValue;
    if st.Scanned? && DigitValue(c) < base { DivMod(st.acc, DigitValue(c), base, v); }
  }

  /** What the scanner accepts before a digit: a number, or one with an underscore behind it. */
  lemma BeforeDigit(s: string, base: nat, lead: bool, u: nat)
    requires s != ""
    ensures var st, g := Started(lead), s[..|s| - 1];
            var end := ScanAll(s, base, st);
            end.Scanned? && end.acc == u <==>
            ReadTo(end, u) || (s[|s| - 1] == '_' && ReadTo(ScanAll(g, base, st), u)) || (s == "_" && lead && u == 0)
  {
    hide DigitValue;
    var st, g := Started(lead), s[..|s| - 1];
    SeenDigit(s, base, st);
    if g != "" { SeenDigit(g, base, st); } else { assert s == [s[0]]; }
  }

  /** What a number text means: digits of the base its prefix names, decimal without one. */
  lemma NumberMeaning(s: string, v: nat)
    ensures ScanNat(s) == Some(v) <==>
            || (s == "0" && v == 0)
            || (s != [] && s[0] != '0' && Numeral(s, 10, false, v))
            || (|s| > 1 && s[0] == '0' && s[1] !in {'b', 'B', 'o', 'O', 'x', 'X'} && Numeral(s[1..], 8, true, v))
            || (|s| > 1 && s[0] == '0' && s[1] in {'b', 'B'} && Numeral(s[2..], 2, true, v))
            || (|s| > 1 && s[0] == '0' && s[1] in {'o', 'O'} && Numeral(s[2..], 8, true, v))
            || (|s| > 1 && s[0] == '0' && s[1] in {'x', 'X'} && Numeral(s[2..], 16, true, v))
  {
    hide Numeral;
    if s != [] && s[0] != '0' {
      DigitsMeaning(s, 10, false, v);
    } else if |s| > 1 {
      DigitsMeaning(s[1..], 8, true, v);
      DigitsMeaning(s[2..], 2, true, v);
      DigitsMeaning(s[2..], 8, true, v);
      DigitsMeaning(s[2..], 16, true, v);
    } else if s != [] {
      assert s == "0";
    } else {
      assert ScanNat(s).None?;
    }
  }

  /** A sign may stand before the number. */
  lemma SignMeaning(s: string, v: nat)
    ensures ScanInt("-" + s) == Some(-(v as int)) <==> ScanNat(s) == Some(v)
    ensures ScanInt("+" + s) == Some(v) <==> ScanNat(s) == Some(v)
    ensures s != [] && s[0] !in {'+', '-'} ==> (ScanInt(s) == Some(v) <==> ScanNat(s) == Some(v))
    ensures s != [] && s[0] !in {'+', '-'} && v > 0 ==> ScanInt(s) != Some(-(v as int))
  {
    hide ScanNat;
    assert ("-" + s)[1..] == s && ("+" + s)[1..] == s;
  }

  lemma DigitsMeaning(s: string, base: nat, lead: bool, v: nat)
    requires base in {2, 8, 10, 16}
    ensures ScanDigits(s, base, 0, 0, if lead then Digit else Nothing) == Some(v) <==> Numeral(s, base, lead, v)
  {
    ScanDigitsIs(s, base, Started(lead));
    NumeralIs(s, base, lead, v);
    if s != [] { SeenDigit(s, base, Started(lead)); }
  }

  /** What printing a component means: its decimal digits, none of them superfluous, and a quote from 2^31 on. */
  lemma PrintMeaning(c: uint32)
    ensures var text, hardened := PrintComponent(c), c as int >= 0x8000_0000;
            var digits := if hardened then text[..|text| - 1] else text;
            && digits != "" && (digits[0] == '0' ==> digits == "0") && AllDigits(digits)
            && Value(digits, 0) == (if hardened then c as int - 0x8000_0000 else c as int)
            && text == digits + if hardened then "'" else ""
  {
    var n := if c as int >= 0x8000_0000 then c as int - 0x8000_0000 else c as int;
    DecimalDigits(n);
    DecimalValue(n);
    assert (Decimal(n) + "'")[..|Decimal(n)|] == Decimal(n);
  }
}
