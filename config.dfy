/** The configuration and the connection URL built from it (main.go:26-48). */
module Config {
  import opened Options

  /** The `database` section of the configuration file (main.go:28-34). */
  datatype DatabaseSection = DatabaseSection(name: string, host: string, port: int, user: string, password: string)

  /** The configuration file (main.go:26-35). */
  datatype Config = Config(logLevel: string, database: DatabaseSection)

  const Scheme: string := "postgres://"

  /** `Config.ConnURL` (main.go:38-48): the fields joined by
      `fmt.Sprintf("postgres://%s:%s@%s:%d/%s", ...)`, with no escaping. The
      URL carries every field of the database section: when no field holds
      the separator that ends it, reading the URL back gives the section. The
      log level plays no part. */
  function ConnURL(c: Config): (url: string)
    ensures Separable(c.database) ==> ParseConnURL(url) == Some(c.database)
  {
    var d := c.database;
    var port := Decimal(d.port);
    var afterHost := port + ['/'] + d.name;
    var afterPassword := d.host + [':'] + afterHost;
    var afterUser := d.password + ['@'] + afterPassword;
    var rest := d.user + [':'] + afterUser;
    var url := Scheme + rest;
    if Separable(d) then
      assert url[..|Scheme|] == Scheme && url[|Scheme|..] == rest;
      SplitAtJoin(d.user, ':', afterUser);
      SplitAtJoin(d.password, '@', afterPassword);
      SplitAtJoin(d.host, ':', afterHost);
      NotInDecimal(d.port, '/');
      SplitAtJoin(port, '/', d.name);
      DecimalRoundTrip(d.port);
      url
    else url
  }

  // ---------------------------------------------------------------------
  // `%d`: decimal rendering of an int
  // ---------------------------------------------------------------------

  predicate IsDigit(c: char)
  {
    '0' <= c <= '9'
  }

  predicate AllDigits(s: string)
  {
    forall i :: 0 <= i < |s| ==> IsDigit(s[i])
  }

  function DigitChar(d: nat): char
    requires d < 10
  {
    ('0' as int + d) as char
  }

  /** The decimal digits of `n`, most significant first, without leading zeros. */
  function Digits(n: nat): (r: string)
    decreases n
    ensures r != [] && AllDigits(r)
    ensures r[0] == '0' ==> n == 0
  {
    if n < 10 then [DigitChar(n)]
    else Digits(n / 10) + [DigitChar(n % 10)]
  }

  /** What `%d` prints for an `int`: a minus sign for negative values, then the digits. */
  function Decimal(n: int): (r: string)
    ensures r != [] && (r[0] == '-' <==> n < 0)
    ensures AllDigits(if n < 0 then r[1..] else r)
  {
    if n < 0 then "-" + Digits(-n) else Digits(n)
  }

  /** The value of a string of decimal digits. */
  function DigitsValue(s: string): nat
    requires AllDigits(s)
  {
    if s == [] then 0
    else DigitsValue(s[..|s| - 1]) * 10 + (s[|s| - 1] as int - '0' as int)
  }

  /** Reads back what `Decimal` writes. */
  function ParseDecimal(s: string): Option<int>
  {
    if s != [] && s[0] == '-' then
      if |s| > 1 && AllDigits(s[1..]) then Some(0 - DigitsValue(s[1..]) as int) else None
    else if s != [] && AllDigits(s) then Some(DigitsValue(s))
    else None
  }

  lemma {:induction false} DigitsRoundTrip(n: nat)
    ensures DigitsValue(Digits(n)) == n
    decreases n
  {
    if n >= 10 {
      DigitsRoundTrip(n / 10);
      var r := Digits(n);
      assert r[..|r| - 1] == Digits(n / 10);
    }
  }

  lemma DecimalRoundTrip(n: int)
    ensures ParseDecimal(Decimal(n)) == Some(n)
  {
    if n < 0 {
      DigitsRoundTrip(-n);
      assert Decimal(n)[1..] == Digits(-n);
    } else {
      DigitsRoundTrip(n);
    }
  }

  lemma NotInDecimal(n: int, c: char)
    requires c != '-' && !IsDigit(c)
    ensures c !in Decimal(n)
  {
    var r := Decimal(n);
    forall i | 0 <= i < |r|
      ensures r[i] != c
    {
      if n < 0 && i > 0 {
        assert r[i] == Digits(-n)[i - 1];
      }
    }
  }

  // ---------------------------------------------------------------------
  // Reading a connection URL back
  // ---------------------------------------------------------------------

  /** Index of the first `c` in `s`, or |s|. */
  function IndexOf(s: string, c: char): (i: nat)
    ensures i <= |s|
    ensures i < |s| ==> s[i] == c
    ensures forall j :: 0 <= j < i ==> s[j] != c
  {
    if s == [] || s[0] == c then 0 else 1 + IndexOf(s[1..], c)
  }

  /** `s` split around its first `c`, or None when `c` does not occur. */
  function SplitAt(s: string, c: char): Option<(string, string)>
  {
    var i := IndexOf(s, c);
    if i == |s| then None else Some((s[..i], s[i + 1..]))
  }

  lemma SplitAtJoin(a: string, c: char, b: string)
    requires c !in a
    ensures SplitAt(a + [c] + b, c) == Some((a, b))
  {
    var s := a + [c] + b;
    assert s[|a|] == c;
    assert IndexOf(s, c) == |a|;
    assert s[..|a|] == a && s[|a| + 1..] == b;
  }

  /** A reference reading of the URL format: the scheme, then the user up to
      the first ':', the password up to the next '@', the host up to the next
      ':', the port up to the next '/', and the database name. */
  function ParseConnURL(url: string): Option<DatabaseSection>
  {
    if |url| < |Scheme| || url[..|Scheme|] != Scheme then None
    else match SplitAt(url[|Scheme|..], ':')
      case None => None
      case Some((user, afterUser)) =>
        match SplitAt(afterUser, '@')
        case None => None
        case Some((password, afterPassword)) =>
          match SplitAt(afterPassword, ':')
          case None => None
          case Some((host, afterHost)) =>
            match SplitAt(afterHost, '/')
            case None => None
            case Some((port, name)) =>
              match ParseDecimal(port)
              case None => None
              case Some(p) => Some(DatabaseSection(name, host, p, user, password))
  }

  /** The fields do not hold the separator that ends them. */
  predicate Separable(d: DatabaseSection)
  {
    ':' !in d.user && '@' !in d.password && ':' !in d.host
  }

  /** The fields are not escaped, so different configurations can give the
      same URL: an '@' moved from the host into the password goes unnoticed. */
  lemma ConnURLNotInjective()
    ensures exists a: Config, b: Config :: a.database != b.database && ConnURL(a) == ConnURL(b)
  {
    var a := Config("info", DatabaseSection("db", "c@d", 5432, "u", "p@x"));
    var b := Config("info", DatabaseSection("db", "d", 5432, "u", "p@x@c"));
    var tail := ":" + Decimal(5432) + "/" + "db";
    assert ConnURL(a) == Scheme + "u:p@x@c@d" + tail;
    assert ConnURL(b) == Scheme + "u:p@x@c@d" + tail;
    assert a.database != b.database;
  }
}
