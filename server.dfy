/**
 * The parts of `main` around the allocator: the identity clamp applied to
 * the command-line ids, the startup of the context with the fixed epoch,
 * and the text sent back on each connection.
 */
module Server {
  import opened Words
  import opened IdLayout
  import opened Allocator

  /** The epoch every timestamp is measured from: 2010-11-04T01:42:54.657Z in milliseconds. */
  const Twepoch: U64 := 1288834974657

  /**
   * The check `main` applies to the datacenter and machine ids parsed from
   * the command line: an id outside [0, 31] is replaced by 1.
   */
  function ClampId(id: int): (r: int)
    ensures IsIdentity(r)
    // a usable id is kept as it is, and only a usable id is kept
    ensures r == id <==> IsIdentity(id)
    // anything else falls back to the default
    ensures r != id ==> r == 1
  {
    if id < 0 || id > 31 then 1 else id
  }

  /**
   * `main` up to the accept loop: clamp both ids, then start the context
   * with the fixed epoch, the machine id as worker id and the datacenter id.
   */
  method Launch(datacenterArg: int, machineArg: int) returns (ctx: Context)
    ensures fresh(ctx) && ctx.Valid()
    ensures ctx.Cfg() == Config(Twepoch, ClampId(datacenterArg), ClampId(machineArg))
    ensures ctx.State() == AllocState(0, 0)
  {
    var datacenterId := ClampId(datacenterArg);
    var machineId := ClampId(machineArg);
    ctx := new Context.Startup(Twepoch, machineId, datacenterId);
  }

  // ---------------------------------------------------------------------
  // Decimal text of an identifier

  predicate AllDigits(s: string) {
    forall i :: 0 <= i < |s| ==> '0' <= s[i] <= '9'
  }

  function DigitChar(d: int): (c: char)
    requires 0 <= d < 10
    ensures '0' <= c <= '9' && c as int - '0' as int == d
  {
    ('0' as int + d) as char
  }

  function Pow10(k: nat): (p: nat)
    ensures p >= 1
  {
    if k == 0 then 1 else 10 * Pow10(k - 1)
  }

  lemma Pow10Values()
    ensures Pow10(17) == 100_000_000_000_000_000
    ensures Pow10(18) == 1_000_000_000_000_000_000
    ensures Pow10(19) == 10_000_000_000_000_000_000
  {
    assert Pow10(1) == 10;
    assert Pow10(2) == 100;
    assert Pow10(3) == 1000;
    assert Pow10(4) == 10000;
    assert Pow10(5) == 100000;
    assert Pow10(6) == 1000000;
    assert Pow10(7) == 10000000;
    assert Pow10(8) == 100000000;
    assert Pow10(9) == 1000000000;
    assert Pow10(10) == 10000000000;
    assert Pow10(11) == 100000000000;
    assert Pow10(12) == 1000000000000;
    assert Pow10(13) == 10000000000000;
    assert Pow10(14) == 100000000000000;
    assert Pow10(15) == 1000000000000000;
    assert Pow10(16) == 10000000000000000;
    assert Pow10(17) == 100000000000000000;
    assert Pow10(18) == 1000000000000000000;
    assert Pow10(19) == 10000000000000000000;
  }

  /** The decimal digits of n, most significant first, without leading zeros. */
  function Decimal(n: nat): (s: string)
    ensures |s| >= 1 && AllDigits(s)
    ensures s[0] == '0' <==> n == 0
  {
    if n < 10 then [DigitChar(n)] else Decimal(n / 10) + [DigitChar(n % 10)]
  }

  /** The value a client reads from a string of decimal digits. */
  function ParseDecimal(s: string): nat
    requires AllDigits(s)
  {
    if s == [] then 0 else 10 * ParseDecimal(s[..|s| - 1]) + (s[|s| - 1] as int - '0' as int)
  }

  /** Reading the digits back gives the number they were written from. */
  lemma {:induction false} DecimalRoundTrip(n: nat)
    ensures ParseDecimal(Decimal(n)) == n
  {
    if n >= 10 {
      DecimalRoundTrip(n / 10);
      var s := Decimal(n);
      assert s[..|s| - 1] == Decimal(n / 10);
    }
  }

  /** A number in [10^k, 10^(k+1)) has k + 1 digits. */
  lemma {:induction false} DecimalLength(n: nat, k: nat)
    requires Pow10(k) <= n < Pow10(k + 1)
    ensures |Decimal(n)| == k + 1
  {
    if k > 0 {
      DecimalLength(n / 10, k - 1);
    }
  }

  /**
   * The text the server sends for a response, as the design intends it: the
   * literal ERR, or every decimal digit of the identifier and nothing else.
   */
  function Reply(r: Response): (text: string)
    ensures r.Err? <==> text == "ERR"
    ensures r.Issued? ==> AllDigits(text) && ParseDecimal(text) == r.id
  {
    match r
    case Err => "ERR"
    case Issued(id) =>
      DecimalRoundTrip(id);
      Decimal(id)
  }

  /** `sprintf(str, "%lld", id)`: the identifier printed as a signed 64-bit number. */
  function SignedText(id: U64): (text: string)
    ensures |text| >= 1
    // the sign appears exactly when the top bit is set
    ensures text[0] == '-' <==> id >= 0x8000_0000_0000_0000
    // below 2^63 the text is the identifier's digits, and reads back as it
    ensures id < 0x8000_0000_0000_0000 ==> AllDigits(text) && ParseDecimal(text) == id
    // from 2^63 up the word reads as the negative number id - 2^64: after the
    // sign come the digits of its magnitude 2^64 - id
    ensures id >= 0x8000_0000_0000_0000 ==>
      AllDigits(text[1..]) && ParseDecimal(text[1..]) == TwoTo64 - id
  {
    if id < 0x8000_0000_0000_0000 then
      DecimalRoundTrip(id);
      Decimal(id)
    else
      DecimalRoundTrip(TwoTo64 - id);
      assert ("-" + Decimal(TwoTo64 - id))[1..] == Decimal(TwoTo64 - id);
      "-" + Decimal(TwoTo64 - id)
  }

  /**
   * What the code as written delivers for an identifier: `sendto` sends the
   * first 18 bytes of the printed text, so a 19-digit identifier loses its
   * last digit.  (For shorter text the terminating NUL and stale buffer
   * bytes follow the digits; they are not modelled.)
   */
  function SentAsWritten(id: U64): (sent: string)
    // at most 18 bytes leave, and they are the start of the printed text
    ensures |sent| <= 18 && |sent| <= |SignedText(id)| && sent == SignedText(id)[..|sent|]
    // the whole text leaves exactly when it fits in 18 bytes
    ensures sent == SignedText(id) <==> |SignedText(id)| <= 18
  {
    var text := SignedText(id);
    if |text| <= 18 then text else text[..18]
  }

  /**
   * Every identifier from 10^18 up to 2^63 reaches the client as a
   * different number: the client parses id / 10.
   */
  lemma TruncatedReply(id: U64)
    requires Pow10(18) <= id < 0x8000_0000_0000_0000
    ensures AllDigits(SentAsWritten(id))
    ensures ParseDecimal(SentAsWritten(id)) == id / 10 != id
  {
    Pow10Values();
    DecimalLength(id / 10, 17);
    var text := Decimal(id);
    assert text[..18] == Decimal(id / 10);
    DecimalRoundTrip(id / 10);
  }

  /**
   * With the fixed epoch, every identifier allocated from 2018-05-25
   * 13:05:53.759 UTC (238418579102 ms after the epoch) until the 41-bit
   * window closes has 19 digits, so the reply as written corrupts it.
   */
  lemma IdsSince2018AreTruncated(cfg: Config, st: AllocState)
    requires cfg.Valid() && cfg.twepoch == Twepoch && IsSequence(st.sequence)
    requires InWindow(cfg, st.lastTimestamp)
    requires st.lastTimestamp - Twepoch >= 238418579102
    ensures ParseDecimal(SentAsWritten(IdOf(cfg, st))) != IdOf(cfg, st)
    ensures ParseDecimal(Reply(Issued(IdOf(cfg, st)))) == IdOf(cfg, st)
  {
    var rel := Sub64(st.lastTimestamp, cfg.twepoch);
    assert IdOf(cfg, st) == MakeId(rel, cfg.datacenterId, cfg.workerId, st.sequence);
    assert IdOf(cfg, st) >= rel * 0x40_0000;
    Pow10Values();
    TruncatedReply(IdOf(cfg, st));
  }
}
