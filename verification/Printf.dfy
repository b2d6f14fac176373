/** The interpreter of format strings in kernel/snprintf.cc, `dopr`. */
module Printf {
  import opened Common
  import opened Numerals

  /** An argument: a number or pointer, a string or null, or a floating-point number, given by the text
      that `fmtfp` makes of it. */
  datatype Arg = Int(v: int) | Str(s: Option<string>) | Real(text: string)

  /** What is put out; or a read behind the end of the format. */
  datatype Result = Done(text: string) | Overrun

  const PLAIN := Flags(false, false, false, false, false, false, false)

  function Before(text: string, r: Result): Result {
    if r.Done? then Done(text + r.text) else Overrun
  }

  function IntArg(args: seq<Arg>): int {
    if args != [] && args[0].Int? then args[0].v else 0
  }

  function Rest(args: seq<Arg>): seq<Arg> {
    if args == [] then [] else args[1..]
  }

  /** An `int`, `unsigned` or pointer in the 32 bits of a `long`. */
  function ToLong(v: int): (r: int)
    ensures Long(r)
  {
    (v + 0x8000_0000) % TWO32 - 0x8000_0000
  }

  predicate IsDigit(c: char) {
    '0' <= c <= '9'
  }

  predicate IsFlag(c: char) {
    c == '-' || c == '+' || c == ' ' || c == '#' || c == '0'
  }

  function WithFlag(f: Flags, c: char): Flags {
    match c
    case '-' => f.(minus := true)
    case '+' => f.(plus := true)
    case ' ' => f.(space := true)
    case '#' => f.(num := true)
    case _ => f.(zero := true)
  }

  predicate IsModifier(c: char) {
    c == 'h' || c == 'l' || c == 'L'
  }

  /** What a conversion puts out, and the arguments it leaves. */
  function Converted(c: char, f: Flags, min: int, max: int, args: seq<Arg>, maxlen: int): (string, seq<Arg>) {
    var v := ToLong(IntArg(args));
    var u := f.(unsigned := true);
    if c == 'd' || c == 'i' then (IntText(v, 10, min, max, f), Rest(args))
    else if c == 'o' then (IntText(v, 8, min, max, u), Rest(args))
    else if c == 'u' then (IntText(v, 10, min, max, u), Rest(args))
    else if c == 'X' then (IntText(v, 16, min, max, u.(up := true)), Rest(args))
    else if c == 'x' then (IntText(v, 16, min, max, u), Rest(args))
    else if c == 'p' then (IntText(v, 16, min, max, f), Rest(args))
    else if c == 'f' then (if args != [] && args[0].Real? then args[0].text else "", Rest(args))
    else if c == 'E' || c == 'e' || c == 'G' || c == 'g' || c == 'n' then ("", Rest(args))
    else if c == 'c' then ([(IntArg(args) % 256) as char], Rest(args))
    else if c == 's' then
      (StrText(StrArg(args), min, if max < 0 then maxlen else max, f.minus), Rest(args))
    else if c == '%' then ("%", args)
    else ("", args)
  }

  function StrArg(args: seq<Arg>): string {
    if args != [] && args[0].Str? && args[0].s.Some? then args[0].s.value else "<NULL>"
  }

  // ---- the grammar of a format ----

  /** The output from place `at` of the format on, when n characters are already out. */
  function Rendered(fmt: string, at: int, args: seq<Arg>, n: int, maxlen: int): Result
    requires 0 <= at <= |fmt|
    decreases |fmt| - at, 0
  {
    if at == |fmt| || n >= maxlen then Done("")
    else if fmt[at] != '%' then Before([fmt[at]], Rendered(fmt, at + 1, args, n + 1, maxlen))
    else FromFlags(fmt, at + 1, PLAIN, args, n, maxlen)
  }

  /** A conversion: flags, */
  function FromFlags(fmt: string, at: int, f: Flags, args: seq<Arg>, n: int, maxlen: int): Result
    requires 0 <= at <= |fmt|
    decreases |fmt| - at, 6
  {
    if at < |fmt| && IsFlag(fmt[at]) then FromFlags(fmt, at + 1, WithFlag(f, fmt[at]), args, n, maxlen)
    else FromMin(fmt, at, f, 0, args, n, maxlen)
  }

  /** a width, in digits or as an argument, */
  function FromMin(fmt: string, at: int, f: Flags, min: int, args: seq<Arg>, n: int, maxlen: int): Result
    requires 0 <= at <= |fmt|
    decreases |fmt| - at, 5
  {
    if at < |fmt| && IsDigit(fmt[at]) then
      FromMin(fmt, at + 1, f, 10 * min + (fmt[at] as int - '0' as int), args, n, maxlen)
    else if at < |fmt| && fmt[at] == '*' then FromDot(fmt, at + 1, f, ToLong(IntArg(args)), Rest(args), n, maxlen)
    else FromDot(fmt, at, f, min, args, n, maxlen)
  }

  function FromDot(fmt: string, at: int, f: Flags, min: int, args: seq<Arg>, n: int, maxlen: int): Result
    requires 0 <= at <= |fmt|
    decreases |fmt| - at, 4
  {
    if at < |fmt| && fmt[at] == '.' then FromMax(fmt, at + 1, f, min, -1, args, n, maxlen)
    else FromMod(fmt, at, f, min, -1, args, n, maxlen)
  }

  /** a precision behind a dot, */
  function FromMax(fmt: string, at: int, f: Flags, min: int, max: int, args: seq<Arg>, n: int, maxlen: int): Result
    requires 0 <= at <= |fmt|
    decreases |fmt| - at, 3
  {
    if at < |fmt| && IsDigit(fmt[at]) then
      FromMax(fmt, at + 1, f, min, 10 * Max(max, 0) + (fmt[at] as int - '0' as int), args, n, maxlen)
    else if at < |fmt| && fmt[at] == '*' then FromMod(fmt, at + 1, f, min, ToLong(IntArg(args)), Rest(args), n, maxlen)
    else FromMod(fmt, at, f, min, max, args, n, maxlen)
  }

  /** a size, which makes no difference where all are 32 bits wide, */
  function FromMod(fmt: string, at: int, f: Flags, min: int, max: int, args: seq<Arg>, n: int, maxlen: int): Result
    requires 0 <= at <= |fmt|
    decreases |fmt| - at, 2
  {
    if at < |fmt| && IsModifier(fmt[at]) then FromConv(fmt, at + 1, f, min, max, args, n, maxlen)
    else FromConv(fmt, at, f, min, max, args, n, maxlen)
  }

  /** and a letter; `w` takes the character behind it along. */
  function FromConv(fmt: string, at: int, f: Flags, min: int, max: int, args: seq<Arg>, n: int, maxlen: int): Result
    requires 0 <= at <= |fmt|
    decreases |fmt| - at, 1
  {
    if at == |fmt| then Done("")
    else
      var (text, left) := Converted(fmt[at], f, min, max, args, maxlen);
      if fmt[at] == 'w' then
        if at + 1 == |fmt| then Overrun else Before(text, Rendered(fmt, at + 2, left, n + |text|, maxlen))
      else Before(text, Rendered(fmt, at + 1, left, n + |text|, maxlen))
  }

  // ---- the state machine ----

  datatype State = Default | InFlags | InMin | InDot | InMax | InMod | InConv | Finished

  /** What is still to come in a state. */
  function Remaining(st: State, fmt: string, at: int, f: Flags, min: int, max: int, args: seq<Arg>, n: int, maxlen: int): Result
    requires 0 <= at <= |fmt|
  {
    match st
    case Default => Rendered(fmt, at, args, n, maxlen)
    case InFlags => FromFlags(fmt, at, f, args, n, maxlen)
    case InMin => FromMin(fmt, at, f, min, args, n, maxlen)
    case InDot => FromDot(fmt, at, f, min, args, n, maxlen)
    case InMax => FromMax(fmt, at, f, min, max, args, n, maxlen)
    case InMod => FromMod(fmt, at, f, min, max, args, n, maxlen)
    case InConv => FromConv(fmt, at, f, min, max, args, n, maxlen)
    case Finished => Done("")
  }

  function Rank(st: State): int {
    match st
    case Default => 0
    case InFlags => 6
    case InMin => 5
    case InDot => 4
    case InMax => 3
    case InMod => 2
    case InConv => 1
    case Finished => 0
  }

  /** One character, or none, is dealt with in each state. */
  lemma Unfold(st: State, fmt: string, at: int, f: Flags, min: int, max: int, args: seq<Arg>, n: int, maxlen: int)
    requires 0 <= at <= |fmt|
    ensures var now := Remaining(st, fmt, at, f, min, max, args, n, maxlen);
      && (at == |fmt| || (st == Default && n >= maxlen) ==> now == Done(""))
      && (at < |fmt| ==>
            var c := fmt[at];
            match st
            case Default =>
              n >= maxlen || now == if c != '%' then
                  Before([c], Remaining(Default, fmt, at + 1, f, min, max, args, n + 1, maxlen))
                else Remaining(InFlags, fmt, at + 1, PLAIN, 0, -1, args, n, maxlen)
            case InFlags => now ==
              if IsFlag(c) then Remaining(InFlags, fmt, at + 1, WithFlag(f, c), 0, -1, args, n, maxlen)
              else Remaining(InMin, fmt, at, f, 0, -1, args, n, maxlen)
            case InMin => now ==
              if IsDigit(c) then Remaining(InMin, fmt, at + 1, f, 10 * min + (c as int - '0' as int), -1, args, n, maxlen)
              else if c == '*' then Remaining(InDot, fmt, at + 1, f, ToLong(IntArg(args)), -1, Rest(args), n, maxlen)
              else Remaining(InDot, fmt, at, f, min, -1, args, n, maxlen)
            case InDot => now ==
              if c == '.' then Remaining(InMax, fmt, at + 1, f, min, -1, args, n, maxlen)
              else Remaining(InMod, fmt, at, f, min, -1, args, n, maxlen)
            case InMax => now ==
              if IsDigit(c) then
                Remaining(InMax, fmt, at + 1, f, min, 10 * Max(max, 0) + (c as int - '0' as int), args, n, maxlen)
              else if c == '*' then Remaining(InMod, fmt, at + 1, f, min, ToLong(IntArg(args)), Rest(args), n, maxlen)
              else Remaining(InMod, fmt, at, f, min, max, args, n, maxlen)
            case InMod => now ==
              Remaining(InConv, fmt, if IsModifier(c) then at + 1 else at, f, min, max, args, n, maxlen)
            case InConv =>
              var (text, left) := Converted(c, f, min, max, args, maxlen);
              now == if c == 'w' && at + 1 == |fmt| then Overrun
                     else Before(text, Remaining(Default, fmt, if c == 'w' then at + 2 else at + 1, PLAIN, 0, -1, left, n + |text|, maxlen))
            case Finished => true)
  {
    hide Converted;
    AtEnd(fmt, f, 0, -1, args, n, maxlen);
    AtEnd(fmt, f, min, -1, args, n, maxlen);
    AtEnd(fmt, f, min, max, args, n, maxlen);
  }

  lemma AtEnd(fmt: string, f: Flags, min: int, max: int, args: seq<Arg>, n: int, maxlen: int)
    ensures FromConv(fmt, |fmt|, f, min, max, args, n, maxlen) == Done("")
    ensures FromMod(fmt, |fmt|, f, min, max, args, n, maxlen) == Done("")
    ensures FromMax(fmt, |fmt|, f, min, max, args, n, maxlen) == Done("")
    ensures max == -1 ==> FromDot(fmt, |fmt|, f, min, args, n, maxlen) == Done("")
    ensures max == -1 ==> FromMin(fmt, |fmt|, f, min, args, n, maxlen) == Done("")
    ensures max == -1 && min == 0 ==> FromFlags(fmt, |fmt|, f, args, n, maxlen) == Done("")
  {
    hide Converted;
    assert FromConv(fmt, |fmt|, f, min, max, args, n, maxlen) == Done("");
    assert FromMod(fmt, |fmt|, f, min, max, args, n, maxlen) == Done("");
    assert max == -1 ==> FromDot(fmt, |fmt|, f, min, args, n, maxlen) == Done("");
    assert max == -1 ==> FromMin(fmt, |fmt|, f, min, args, n, maxlen) == Done("");
  }

  lemma BeforeTwice(a: string, b: string, r: Result)
    ensures Before(a, Before(b, r)) == Before(a + b, r)
  {
    if r.Done? {
      assert a + (b + r.text) == a + b + r.text;
    }
  }

  /** The case of a letter in `dopr`. */
  method Convert1(out: string, c: char, f: Flags, min: int, max: int, args: seq<Arg>, maxlen: int)
    returns (out': string, left: seq<Arg>)
    ensures out' == out + Converted(c, f, min, max, args, maxlen).0 && left == Converted(c, f, min, max, args, maxlen).1
  {
    hide IntText, StrText;
    var v := ToLong(IntArg(args));
    left := Rest(args);
    match c {
      case 'd' => out' := FmtInt(out, v, 10, min, max, f);
      case 'i' => out' := FmtInt(out, v, 10, min, max, f);
      case 'o' => out' := FmtInt(out, v, 8, min, max, f.(unsigned := true));
      case 'u' => out' := FmtInt(out, v, 10, min, max, f.(unsigned := true));
      case 'X' => out' := FmtInt(out, v, 16, min, max, f.(unsigned := true, up := true));
      case 'x' => out' := FmtInt(out, v, 16, min, max, f.(unsigned := true));
      case 'p' => out' := FmtInt(out, v, 16, min, max, f);
      case 'f' => out' := out + if args != [] && args[0].Real? then args[0].text else "";
      case 'E' => out' := out;
      case 'e' => out' := out;
      case 'G' => out' := out;
      case 'g' => out' := out;
      case 'n' => out' := out;
      case 'c' => out' := out + [(IntArg(args) % 256) as char];
      case 's' => out' := FmtStr(out, StrArg(args), min, if max < 0 then maxlen else max, f.minus);
      case '%' => out', left := out + "%", args;
      case _ => out', left := out, args;
    }
  }

  /** `dopr`: one character of the format at a time. */
  method Dopr(format: string, arguments: seq<Arg>, maxlen: int) returns (r: Result)
    requires '\0' !in format
    ensures r == Rendered(format, 0, arguments, 0, maxlen)
  {
    hide Converted, Rendered, Remaining;
    Begins(format, arguments, maxlen);
    var st, at, f, min, max, args, out := Default, 0, PLAIN, 0, -1, arguments, "";
    while st != Finished
      invariant 0 <= at <= |format|
      invariant st == InFlags ==> min == 0
      invariant st == Default || st == InFlags || st == InMin || st == InDot ==> max == -1
      invariant st == Default ==> f == PLAIN && min == 0
      invariant st != Default && st != Finished ==> |out| < maxlen
      invariant Rendered(format, 0, arguments, 0, maxlen) ==
        Before(out, Remaining(st, format, at, f, min, max, args, |out|, maxlen))
      decreases st != Finished, |format| - at, Rank(st)
    {
      Unfold(st, format, at, f, min, max, args, |out|, maxlen);
      if at == |format| || |out| >= maxlen {
        Ends(format, at, f, min, max, args, |out|, maxlen);
        st := Finished;
      } else {
        var ch := format[at];
        match st {
          case Default =>
            if ch == '%' {
              st := InFlags;
            } else {
              BeforeTwice(out, [ch], Remaining(Default, format, at + 1, f, min, max, args, |out| + 1, maxlen));
              out := out + [ch];
            }
            at := at + 1;
          case InFlags =>
            if IsFlag(ch) {
              f := WithFlag(f, ch);
              at := at + 1;
            } else {
              st := InMin;
            }
          case InMin =>
            if IsDigit(ch) {
              min := 10 * min + (ch as int - '0' as int);
              at := at + 1;
            } else if ch == '*' {
              min, args := ToLong(IntArg(args)), Rest(args);
              at := at + 1;
              st := InDot;
            } else {
              st := InDot;
            }
          case InDot =>
            if ch == '.' {
              st := InMax;
              at := at + 1;
            } else {
              st := InMod;
            }
          case InMax =>
            if IsDigit(ch) {
              if max < 0 {
                max := 0;
              }
              max := 10 * max + (ch as int - '0' as int);
              at := at + 1;
            } else if ch == '*' {
              max, args := ToLong(IntArg(args)), Rest(args);
              at := at + 1;
              st := InMod;
            } else {
              st := InMod;
            }
          case InMod =>
            if IsModifier(ch) {
              at := at + 1;
            }
            st := InConv;
          case InConv =>
            ghost var (text, left) := Converted(ch, f, min, max, args, maxlen);
            ghost var next := if ch == 'w' then at + 2 else at + 1;
            if next <= |format| {
              BeforeTwice(out, text, Remaining(Default, format, next, PLAIN, 0, -1, left, |out| + |text|, maxlen));
            }
            out, args := Convert1(out, ch, f, min, max, args, maxlen);
            if ch == 'w' {
              if at + 1 == |format| {
                return Overrun;
              }
              at := at + 1;
            }
            at := at + 1;
            st, f, min, max := Default, PLAIN, 0, -1;
        }
      }
    }
    Ends(format, at, f, min, max, args, |out|, maxlen);
    r := Done(out);
  }

  lemma Begins(fmt: string, args: seq<Arg>, maxlen: int)
    ensures Rendered(fmt, 0, args, 0, maxlen) ==
      Before("", Remaining(Default, fmt, 0, PLAIN, 0, -1, args, 0, maxlen))
  {
  }

  lemma Ends(fmt: string, at: int, f: Flags, min: int, max: int, args: seq<Arg>, n: int, maxlen: int)
    requires 0 <= at <= |fmt|
    ensures Remaining(Finished, fmt, at, f, min, max, args, n, maxlen) == Done("")
  {
  }

  // ---- what a format puts out ----

  /** Text without a percent sign is copied as it is, up to the limit. */
  lemma {:induction false} LiteralText(fmt: string, at: int, k: int, args: seq<Arg>, n: int, maxlen: int)
    requires 0 <= at <= k <= |fmt| && 0 <= n && (forall i | at <= i < k :: fmt[i] != '%')
    ensures n + (k - at) <= maxlen ==>
      Rendered(fmt, at, args, n, maxlen) == Before(fmt[at..k], Rendered(fmt, k, args, n + (k - at), maxlen))
    ensures n <= maxlen <= n + (k - at) ==> Rendered(fmt, at, args, n, maxlen) == Done(fmt[at..at + (maxlen - n)])
    ensures n >= maxlen ==> Rendered(fmt, at, args, n, maxlen) == Done("")
    decreases k - at
  {
    hide FromFlags;
    if at < k {
      LiteralText(fmt, at + 1, k, args, n + 1, maxlen);
      BeforeTwice([fmt[at]], fmt[at + 1..k], Rendered(fmt, k, args, n + (k - at), maxlen));
      assert [fmt[at]] + fmt[at + 1..k] == fmt[at..k];
      if n < maxlen <= n + (k - at) {
        assert [fmt[at]] + fmt[at + 1..at + 1 + (maxlen - (n + 1))] == fmt[at..at + (maxlen - n)];
      }
    } else {
      BeforeNothing(fmt[at..k], Rendered(fmt, k, args, n, maxlen));
    }
  }

  lemma BeforeNothing(s: string, r: Result)
    requires s == ""
    ensures Before(s, r) == r
  {
    if r.Done? {
      assert s + r.text == r.text;
    }
  }

  // ---- where a conversion's letter is ----

  /** What a conversion has said before its letter, and the arguments left. */
  datatype Spec = Spec(f: Flags, min: int, max: int, args: seq<Arg>)

  datatype Scan = Scan(st: State, at: int, p: Spec)

  predicate Within(fmt: string, s: Scan) {
    0 <= s.at <= |fmt| && s.st != Default && s.st != Finished
  }

  /** One step on the way to the letter. */
  function Advance(fmt: string, s: Scan): (s': Scan)
    requires Within(fmt, s)
    ensures Within(fmt, s') && s.at <= s'.at
    ensures s.st != InConv ==> s'.at > s.at || Rank(s'.st) < Rank(s.st)
  {
    var c := if s.at == |fmt| then '\0' else fmt[s.at];
    match s.st
    case InFlags =>
      if IsFlag(c) then s.(at := s.at + 1, p := s.p.(f := WithFlag(s.p.f, c))) else s.(st := InMin)
    case InMin =>
      if IsDigit(c) then s.(at := s.at + 1, p := s.p.(min := 10 * s.p.min + (c as int - '0' as int)))
      else if c == '*' then Scan(InDot, s.at + 1, s.p.(min := ToLong(IntArg(s.p.args)), args := Rest(s.p.args)))
      else s.(st := InDot)
    case InDot => if c == '.' then s.(st := InMax, at := s.at + 1) else s.(st := InMod)
    case InMax =>
      if IsDigit(c) then s.(at := s.at + 1, p := s.p.(max := 10 * Max(s.p.max, 0) + (c as int - '0' as int)))
      else if c == '*' then Scan(InMod, s.at + 1, s.p.(max := ToLong(IntArg(s.p.args)), args := Rest(s.p.args)))
      else s.(st := InMod)
    case InMod => s.(st := InConv, at := if IsModifier(c) then s.at + 1 else s.at)
    case InConv => s
  }

  function Scanned(fmt: string, s: Scan): (r: Scan)
    requires Within(fmt, s)
    ensures Within(fmt, r) && r.st == InConv && s.at <= r.at
    decreases |fmt| - s.at, Rank(s.st)
  {
    if s.st == InConv then s else Scanned(fmt, Advance(fmt, s))
  }

  function Opening(at: int, args: seq<Arg>): Scan {
    Scan(InFlags, at + 1, Spec(PLAIN, 0, -1, args))
  }

  /** The place of the letter of the conversion at `at`. */
  function Letter(fmt: string, at: int): (e: int)
    requires 0 <= at < |fmt|
    ensures at < e <= |fmt|
  {
    Scanned(fmt, Opening(at, [])).at
  }

  function Coming(fmt: string, s: Scan, n: int, maxlen: int): Result
    requires 0 <= s.at <= |fmt|
  {
    Remaining(s.st, fmt, s.at, s.p.f, s.p.min, s.p.max, s.p.args, n, maxlen)
  }

  predicate Fresh(s: Scan) {
    (s.st == InFlags ==> s.p.min == 0) && (s.st == InFlags || s.st == InMin || s.st == InDot ==> s.p.max == -1)
  }

  lemma {:induction false} Reaches(fmt: string, s: Scan, n: int, maxlen: int)
    requires Within(fmt, s) && Fresh(s)
    ensures Coming(fmt, s, n, maxlen) == Coming(fmt, Scanned(fmt, s), n, maxlen)
    decreases |fmt| - s.at, Rank(s.st)
  {
    if s.st != InConv {
      OneStep(fmt, s, n, maxlen);
      Reaches(fmt, Advance(fmt, s), n, maxlen);
    }
  }

  lemma OneStep(fmt: string, s: Scan, n: int, maxlen: int)
    requires Within(fmt, s) && Fresh(s)
    ensures Fresh(Advance(fmt, s)) && Coming(fmt, s, n, maxlen) == Coming(fmt, Advance(fmt, s), n, maxlen)
  {
    hide FromConv, ToLong, IntArg, Rest, WithFlag;
  }

  /** Up to its letter a conversion is read alike in every format that begins alike. */
  lemma {:induction false} ScannedAlike(fmt: string, g: string, s: Scan)
    requires Within(g, s) && g <= fmt && Scanned(fmt, s).at <= |g|
    ensures Scanned(g, s) == Scanned(fmt, s)
    decreases |fmt| - s.at, Rank(s.st)
  {
    if s.st != InConv {
      assert s.at < |g| ==> g[s.at] == fmt[s.at];
      assert Advance(fmt, s).at <= |g|;
      ScannedAlike(fmt, g, Advance(fmt, s));
    }
  }

  /** Where the letter is depends on the format alone. */
  lemma {:induction false} ScannedAlone(fmt: string, s: Scan, p: Spec)
    requires Within(fmt, s)
    ensures Scanned(fmt, s.(p := p)).at == Scanned(fmt, s).at
    decreases |fmt| - s.at, Rank(s.st)
  {
    if s.st != InConv {
      var s', s'' := Advance(fmt, s), Advance(fmt, s.(p := p));
      assert s'' == s'.(p := s''.p);
      ScannedAlone(fmt, s', s''.p);
    }
  }

  /** The asterisks from one place to another, and the arguments behind those that they take. */
  function Stars(fmt: string, at: int, e: int): nat
    requires 0 <= at <= e <= |fmt|
    decreases e - at
  {
    if at == e then 0 else (if fmt[at] == '*' then 1 else 0) + Stars(fmt, at + 1, e)
  }

  function Left(args: seq<Arg>, k: nat): seq<Arg> {
    if k == 0 then args else Left(Rest(args), k - 1)
  }

  /** No flag makes a number unsigned or its digits capitals, and each asterisk takes an argument. */
  lemma {:induction false} ScannedTakes(fmt: string, s: Scan)
    requires Within(fmt, s)
    ensures var r := Scanned(fmt, s);
      && r.p.f.unsigned == s.p.f.unsigned && r.p.f.up == s.p.f.up
      && r.p.args == Left(s.p.args, Stars(fmt, s.at, r.at))
    decreases |fmt| - s.at, Rank(s.st)
  {
    hide ToLong, IntArg, Rest;
    if s.st != InConv {
      ScannedTakes(fmt, Advance(fmt, s));
    }
  }

  // ---- reading beyond the end ----

  /** The place behind the letter at e; behind the format, if a `w` is its last character. */
  function Behind(fmt: string, e: int): int
    requires 0 <= e <= |fmt|
  {
    if e == |fmt| then e else if fmt[e] == 'w' then e + 2 else e + 1
  }

  function SpecAt(fmt: string, at: int, args: seq<Arg>): Spec
    requires 0 <= at < |fmt|
  {
    Scanned(fmt, Opening(at, args)).p
  }

  /** From the percent sign to the letter. */
  lemma ToLetter(fmt: string, at: int, args: seq<Arg>, n: int, maxlen: int)
    requires 0 <= at < |fmt| && fmt[at] == '%' && n < maxlen
    ensures var p := SpecAt(fmt, at, args);
      Rendered(fmt, at, args, n, maxlen) == FromConv(fmt, Letter(fmt, at), p.f, p.min, p.max, p.args, n, maxlen)
  {
    hide Scanned, FromFlags, FromConv;
    ScannedAlone(fmt, Opening(at, []), Opening(at, args).p);
    Reaches(fmt, Opening(at, args), n, maxlen);
  }

  /** What a conversion puts out, the same in every format that begins alike and goes on behind it. */
  lemma Conversion(fmt: string, g: string, at: int, args: seq<Arg>, n: int, maxlen: int)
    returns (left: seq<Arg>, text: string)
    requires 0 <= at < |g| && g <= fmt && fmt[at] == '%' && n < maxlen && Behind(fmt, Letter(fmt, at)) <= |g|
    ensures var next := Behind(fmt, Letter(fmt, at));
      && Rendered(fmt, at, args, n, maxlen) == Before(text, Rendered(fmt, next, left, n + |text|, maxlen))
      && Rendered(g, at, args, n, maxlen) == Before(text, Rendered(g, next, left, n + |text|, maxlen))
  {
    hide Scanned, Converted, FromFlags;
    var p, e := SpecAt(fmt, at, args), Letter(fmt, at);
    ToLetter(fmt, at, args, n, maxlen);
    ToLetter(g, at, args, n, maxlen);
    ScannedAlone(fmt, Opening(at, []), Opening(at, args).p);
    ScannedAlike(fmt, g, Opening(at, args));
    ScannedAlike(fmt, g, Opening(at, []));
    if e < |fmt| {
      assert g[e] == fmt[e];
      var (t, l) := Converted(fmt[e], p.f, p.min, p.max, p.args, maxlen);
      left, text := l, t;
    } else {
      left, text := p.args, "";
    }
  }

  lemma ReadsBeyond(fmt: string, at: int, args: seq<Arg>, n: int, maxlen: int)
    requires 0 <= at < |fmt| && fmt[at] == '%' && n < maxlen && Behind(fmt, Letter(fmt, at)) > |fmt|
    ensures Rendered(fmt, at, args, n, maxlen) == Overrun
  {
    hide Letter, SpecAt, Converted, Rendered;
    ToLetter(fmt, at, args, n, maxlen);
  }

  /** Where the conversion begins whose letter is a `w` at the end of the format, or -1. */
  function Unended(fmt: string, at: int): (k: int)
    requires 0 <= at <= |fmt|
    ensures k == -1 || (at <= k < |fmt| && fmt[k] == '%' && fmt[|fmt| - 1] == 'w')
    decreases |fmt| - at
  {
    if at == |fmt| then -1
    else if fmt[at] != '%' then Unended(fmt, at + 1)
    else
      var next := Behind(fmt, Letter(fmt, at));
      if next > |fmt| then at else Unended(fmt, next)
  }

  predicate Short(r: Result, n: int, maxlen: int) {
    r.Done? && n + |r.text| < maxlen
  }

  /** `dopr` reads beyond the end of a format exactly if the last conversion's letter is a `w` at the end, and
      what comes before that conversion does not reach the limit. */
  lemma {:induction false} OverrunExactly(fmt: string, at: int, args: seq<Arg>, n: int, maxlen: int)
    requires 0 <= at <= |fmt|
    ensures var k := Unended(fmt, at);
      Rendered(fmt, at, args, n, maxlen) == Overrun <==>
      k >= 0 && Short(Rendered(fmt[..k], at, args, n, maxlen), n, maxlen)
    decreases |fmt| - at
  {
    hide Letter, Converted, FromFlags;
    var k := Unended(fmt, at);
    if at < |fmt| && n < maxlen {
      if fmt[at] != '%' {
        OverrunExactly(fmt, at + 1, args, n + 1, maxlen);
      } else if Behind(fmt, Letter(fmt, at)) > |fmt| {
        ReadsBeyond(fmt, at, args, n, maxlen);
      } else {
        var left, text := Conversion(fmt, if k >= 0 then fmt[..k] else fmt, at, args, n, maxlen);
        OverrunExactly(fmt, Behind(fmt, Letter(fmt, at)), left, n + |text|, maxlen);
      }
    }
  }

  /** Such a format; and some that end in a `w` and do no harm. */
  lemma OverrunExample(args: seq<Arg>)
    ensures Rendered("%w", 0, args, 0, 10) == Overrun
    ensures Rendered("now", 0, args, 0, 10) != Overrun && Rendered("%%w", 0, args, 0, 10) != Overrun
  {
    OverrunExactly("now", 0, args, 0, 10);
    OverrunExactly("%%w", 0, args, 0, 10);
  }

  // ---- numbers ----

  /** The base in which a letter puts out a number, or 0. */
  function BaseOf(c: char): int {
    if c in {'d', 'i', 'u'} then 10 else if c == 'o' then 8 else if c in {'x', 'X', 'p'} then 16 else 0
  }

  predicate Signed(c: char) {
    c in {'d', 'i', 'p'}
  }

  /** A number put out anywhere in a format, with any flags, width, precision and size, reads back as the
      number; and then the format goes on. */
  lemma NumberReadsBack(fmt: string, at: int, args: seq<Arg>, n: int, maxlen: int)
    requires 0 <= at < |fmt| && fmt[at] == '%' && n < maxlen
    requires Letter(fmt, at) < |fmt| && BaseOf(fmt[Letter(fmt, at)]) > 0
    ensures var e := Letter(fmt, at);
      var c, left := fmt[e], Left(args, Stars(fmt, at + 1, e));
      var v := ToLong(IntArg(left));
      exists text ::
        && Rendered(fmt, at, args, n, maxlen) == Before(text, Rendered(fmt, e + 1, Rest(left), n + |text|, maxlen))
        && Parsed(text, BaseOf(c)) == (if Signed(c) then v else Unsigned(v))
        && text == IntText(v, BaseOf(c), SpecAt(fmt, at, args).min, SpecAt(fmt, at, args).max,
                           SpecAt(fmt, at, args).f.(unsigned := !Signed(c), up := c == 'X'))
  {
    hide Letter, SpecAt, Converted, Parsed, Stars, Left, IntArg, Rest, ToLong, Unsigned, Rendered, Before;
    var p, e := SpecAt(fmt, at, args), Letter(fmt, at);
    ToLetter(fmt, at, args, n, maxlen);
    SpecTakes(fmt, at, args);
    var text := NumberText(fmt[e], p, maxlen);
    assert FromConv(fmt, e, p.f, p.min, p.max, p.args, n, maxlen) ==
      Before(text, Rendered(fmt, e + 1, Rest(p.args), n + |text|, maxlen));
  }

  lemma SpecTakes(fmt: string, at: int, args: seq<Arg>)
    requires 0 <= at < |fmt|
    ensures var p := SpecAt(fmt, at, args);
      !p.f.unsigned && !p.f.up && p.args == Left(args, Stars(fmt, at + 1, Letter(fmt, at)))
  {
    hide Scanned, Stars, Left;
    ScannedAlone(fmt, Opening(at, []), Opening(at, args).p);
    ScannedTakes(fmt, Opening(at, args));
  }

  lemma NumberText(c: char, p: Spec, maxlen: int) returns (text: string)
    requires BaseOf(c) > 0 && !p.f.unsigned && !p.f.up
    ensures Converted(c, p.f, p.min, p.max, p.args, maxlen) == (text, Rest(p.args))
    ensures Parsed(text, BaseOf(c)) == if Signed(c) then ToLong(IntArg(p.args)) else Unsigned(ToLong(IntArg(p.args)))
    ensures text == IntText(ToLong(IntArg(p.args)), BaseOf(c), p.min, p.max, p.f.(unsigned := !Signed(c), up := c == 'X'))
  {
    hide IntText, StrText, Parsed, IntArg, ToLong, Unsigned, Rest;
    var v := ToLong(IntArg(p.args));
    var f := p.f.(unsigned := !Signed(c), up := c == 'X');
    assert p.f.(unsigned := true, up := false) == p.f.(unsigned := true) && p.f.(unsigned := false, up := false) == p.f;
    text := IntText(v, BaseOf(c), p.min, p.max, f);
    RoundTrip(v, BaseOf(c), p.min, p.max, f);
  }

  // ---- the other letters ----

  /** What the letters that put out no number put out, with the arguments `left` behind the asterisks: a percent
      sign; a character; a string in its field, cut off at the precision or else at the limit; the text of a
      floating-point number; and nothing, for those that only take an argument and for all others. */
  lemma LettersPut(fmt: string, at: int, args: seq<Arg>, n: int, maxlen: int) returns (text: string, rest: seq<Arg>)
    requires 0 <= at < |fmt| && fmt[at] == '%' && n < maxlen
    requires Letter(fmt, at) < |fmt| && fmt[Letter(fmt, at)] != 'w' && BaseOf(fmt[Letter(fmt, at)]) == 0
    ensures var e := Letter(fmt, at);
      Rendered(fmt, at, args, n, maxlen) == Before(text, Rendered(fmt, e + 1, rest, n + |text|, maxlen))
    ensures var e := Letter(fmt, at);
      var c, left, p := fmt[e], Left(args, Stars(fmt, at + 1, e)), SpecAt(fmt, at, args);
      && rest == (if c in {'c', 's', 'f', 'e', 'E', 'g', 'G', 'n'} then Rest(left) else left)
      && (c == '%' ==> text == "%")
      && (c == 'c' ==> |text| == 1 && (text[0] as int - IntArg(left)) % 256 == 0 && text[0] as int < 256)
      && (c == 's' ==> IsField(text, StrArg(left), p.min, if p.max < 0 then maxlen else p.max, p.f.minus))
      && (c == 'f' ==> text == if left != [] && left[0].Real? then left[0].text else "")
      && (c !in {'%', 'c', 's', 'f'} ==> text == "")
  {
    hide Letter, SpecAt, Converted, Stars, Left, Rendered, StrArg, Rest, IntArg, IsField;
    var p, e := SpecAt(fmt, at, args), Letter(fmt, at);
    ToLetter(fmt, at, args, n, maxlen);
    SpecTakes(fmt, at, args);
    LetterPuts(fmt[e], p, maxlen);
    text, rest := Converted(fmt[e], p.f, p.min, p.max, p.args, maxlen).0, Converted(fmt[e], p.f, p.min, p.max, p.args, maxlen).1;
    assert FromConv(fmt, e, p.f, p.min, p.max, p.args, n, maxlen) == Before(text, Rendered(fmt, e + 1, rest, n + |text|, maxlen));
  }

  ghost predicate IsField(text: string, value: string, min: int, max: int, minus: bool) {
    var width := Max(min, |value|);
    && |text| == (if max < 0 then 0 else if max < width then max else width)
    && forall i {:trigger InField(text, value, min, minus, i)} | 0 <= i < |text| :: InField(text, value, min, minus, i)
  }

  lemma LetterPuts(c: char, p: Spec, maxlen: int)
    requires BaseOf(c) == 0
    ensures var (text, rest) := Converted(c, p.f, p.min, p.max, p.args, maxlen);
      && rest == (if c in {'c', 's', 'f', 'e', 'E', 'g', 'G', 'n'} then Rest(p.args) else p.args)
      && (c == '%' ==> text == "%")
      && (c == 'c' ==> |text| == 1 && (text[0] as int - IntArg(p.args)) % 256 == 0 && text[0] as int < 256)
      && (c == 's' ==> IsField(text, StrArg(p.args), p.min, if p.max < 0 then maxlen else p.max, p.f.minus))
      && (c == 'f' ==> text == if p.args != [] && p.args[0].Real? then p.args[0].text else "")
      && (c !in {'%', 'c', 's', 'f'} ==> text == "")
  {
    hide IntText, StrText, StrArg, IntArg, ToLong;
    FieldLooks(StrArg(p.args), p.min, if p.max < 0 then maxlen else p.max, p.f.minus);
  }

  // ---- flags, width and precision as they are written ----

  predicate AllFlags(s: string) {
    forall i | 0 <= i < |s| :: IsFlag(s[i])
  }

  predicate AllDigits(s: string) {
    forall i | 0 <= i < |s| :: IsDigit(s[i])
  }

  function WithAll(f: Flags, s: string): Flags {
    f.(minus := f.minus || '-' in s, plus := f.plus || '+' in s, space := f.space || ' ' in s,
       num := f.num || '#' in s, zero := f.zero || '0' in s)
  }

  /** The character at k, or none. */
  function CharAt(fmt: string, k: int): char
    requires 0 <= k <= |fmt|
  {
    if k == |fmt| then '\0' else fmt[k]
  }

  lemma {:induction false} FlagsScanned(fmt: string, s: Scan, k: int)
    requires Within(fmt, s) && s.st == InFlags && s.at <= k <= |fmt| && AllFlags(fmt[s.at..k]) && !IsFlag(CharAt(fmt, k))
    ensures Scanned(fmt, s) == Scanned(fmt, Scan(InMin, k, s.p.(f := WithAll(s.p.f, fmt[s.at..k]))))
    decreases k - s.at
  {
    hide ToLong, IntArg, Rest;
    if s.at < k {
      var c := fmt[s.at];
      assert c == fmt[s.at..k][0];
      assert fmt[s.at..k] == [c] + fmt[s.at + 1..k];
      var rest := fmt[s.at + 1..k];
      forall i | 0 <= i < |rest| ensures IsFlag(rest[i]) {
        assert rest[i] == fmt[s.at..k][i + 1];
      }
      FlagsScanned(fmt, Advance(fmt, s), k);
      assert WithAll(WithFlag(s.p.f, c), fmt[s.at + 1..k]) == WithAll(s.p.f, fmt[s.at..k]);
    } else {
      assert WithAll(s.p.f, fmt[s.at..k]) == s.p.f;
    }
  }

  lemma ValueGrows(fmt: string, from: int, at: int)
    requires 0 <= from <= at < |fmt| && IsDigit(fmt[at])
    ensures Value(fmt[from..at + 1], 10) == 10 * Value(fmt[from..at], 10) + (fmt[at] as int - '0' as int)
  {
    assert fmt[from..at + 1][..at - from] == fmt[from..at];
  }

  lemma {:induction false} NotNegative(s: string)
    requires AllDigits(s)
    ensures Value(s, 10) >= 0
    decreases |s|
  {
    if s != "" {
      NotNegative(s[..|s| - 1]);
    }
  }

  /** The digits of a width from `from` on. */
  lemma {:induction false} WidthScanned(fmt: string, s: Scan, from: int, k: int)
    requires Within(fmt, s) && s.st == InMin && 0 <= from <= s.at <= k <= |fmt| && AllDigits(fmt[from..k])
    requires !IsDigit(CharAt(fmt, k)) && CharAt(fmt, k) != '*' && s.p.min == Value(fmt[from..s.at], 10)
    ensures Scanned(fmt, s) == Scanned(fmt, Scan(InDot, k, s.p.(min := Value(fmt[from..k], 10))))
    decreases k - s.at
  {
    hide ToLong, IntArg, Rest, Value;
    if s.at < k {
      assert fmt[s.at] == fmt[from..k][s.at - from];
      ValueGrows(fmt, from, s.at);
      WidthScanned(fmt, Advance(fmt, s), from, k);
    }
  }

  /** The digits of a precision from `from` on. */
  lemma {:induction false} PrecisionScanned(fmt: string, s: Scan, from: int, k: int)
    requires Within(fmt, s) && s.st == InMax && 0 <= from <= s.at <= k <= |fmt| && AllDigits(fmt[from..k])
    requires !IsDigit(CharAt(fmt, k)) && CharAt(fmt, k) != '*'
    requires s.p.max == if s.at == from then -1 else Value(fmt[from..s.at], 10)
    ensures Scanned(fmt, s) == Scanned(fmt, Scan(InMod, k, s.p.(max := if k == from then -1 else Value(fmt[from..k], 10))))
    decreases k - s.at
  {
    hide ToLong, IntArg, Rest, Value;
    if s.at < k {
      assert fmt[s.at] == fmt[from..k][s.at - from];
      ValueGrows(fmt, from, s.at);
      NoValue();
      assert fmt[from..from] == "";
      forall i | 0 <= i < s.at - from ensures IsDigit(fmt[from..s.at][i]) {
        assert fmt[from..s.at][i] == fmt[from..k][i];
      }
      NotNegative(fmt[from..s.at]);
      PrecisionScanned(fmt, Advance(fmt, s), from, k);
    }
  }

  lemma NoValue()
    ensures Value("", 10) == 0
  {
  }

  /** A conversion written as a percent sign, flags up to a, the digits of a width up to b, perhaps a dot and
      the digits of a precision, together up to d, and perhaps a size: the flags are those written, in whatever
      order, and width and precision are the numbers written. */
  lemma SpecIsWritten(fmt: string, at: int, a: int, b: int, d: int, args: seq<Arg>)
    requires 0 <= at < a <= b <= d <= |fmt|
    requires AllFlags(fmt[at + 1..a]) && AllDigits(fmt[a..b]) && !IsFlag(CharAt(fmt, a))
    requires d == b || (fmt[b] == '.' && AllDigits(fmt[b + 1..d]))
    requires !IsDigit(CharAt(fmt, d)) && CharAt(fmt, d) != '*' && CharAt(fmt, b) != '*' && !IsDigit(CharAt(fmt, b))
    requires d == b ==> CharAt(fmt, b) != '.'
    ensures Letter(fmt, at) == if IsModifier(CharAt(fmt, d)) then d + 1 else d
    ensures SpecAt(fmt, at, args) ==
      Spec(WithAll(PLAIN, fmt[at + 1..a]), Value(fmt[a..b], 10), if d <= b + 1 then -1 else Value(fmt[b + 1..d], 10), args)
  {
    hide Value, ToLong, IntArg, Rest, WithAll;
    ScannedAlone(fmt, Opening(at, []), Opening(at, args).p);
    var s := Opening(at, args);
    FlagsScanned(fmt, s, a);
    var s1 := Scan(InMin, a, s.p.(f := WithAll(PLAIN, fmt[at + 1..a])));
    NoValue();
    assert fmt[a..a] == "";
    WidthScanned(fmt, s1, a, b);
    var s2 := Scan(InDot, b, s1.p.(min := Value(fmt[a..b], 10)));
    if d > b {
      PrecisionScanned(fmt, Advance(fmt, s2), b + 1, d);
      EndsScan(fmt, Scan(InMod, d, s2.p.(max := if d == b + 1 then -1 else Value(fmt[b + 1..d], 10))));
    } else {
      EndsScan(fmt, Advance(fmt, s2));
    }
  }

  lemma EndsScan(fmt: string, s: Scan)
    requires Within(fmt, s) && s.st == InMod
    ensures Scanned(fmt, s) == Scan(InConv, if IsModifier(CharAt(fmt, s.at)) then s.at + 1 else s.at, s.p)
  {
  }
}
