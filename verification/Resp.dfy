/** The Redis wire protocol as doConn speaks it: length-prefixed requests and replies. */
module Resp {
  import opened Base
  import opened Numerals

  const CRLF := "\r\n"

  function Bulk(x: string): string {
    "$" + Decimal(|x|) + CRLF + x + CRLF
  }

  function Bulks(args: seq<string>): string {
    if args == [] then "" else Bulk(args[0]) + Bulks(args[1..])
  }

  /** What doConn writes for one command. */
  function Frame(args: seq<string>): string {
    "*" + Decimal(|args|) + CRLF + Bulks(args)
  }

  // ---- the server's reader ----

  /** The text before the first CRLF, and the text after it. */
  function CutLine(s: string): Option<(string, string)> {
    if |s| < 2 then None
    else if s[..2] == CRLF then Some(("", s[2..]))
    else
      match CutLine(s[1..])
      case None => None
      case Some((line, rest)) => Some((s[..1] + line, rest))
  }

  function ReadLength(tag: char, s: string): Option<(nat, string)> {
    if s == "" || s[0] != tag then None
    else
      match CutLine(s[1..])
      case None => None
      case Some((line, rest)) => if ParseDigits(line).None? then None else Some((ParseDigits(line).value, rest))
  }

  function ReadBulk(s: string): Option<(string, string)> {
    match ReadLength('$', s)
    case None => None
    case Some((n, rest)) =>
      if |rest| < n + 2 || rest[n..n + 2] != CRLF then None else Some((rest[..n], rest[n + 2..]))
  }

  function ReadBulks(n: nat, s: string): Option<(seq<string>, string)> {
    if n == 0 then Some(([], s))
    else
      match ReadBulk(s)
      case None => None
      case Some((x, rest)) =>
        match ReadBulks(n - 1, rest)
        case None => None
        case Some((xs, rest')) => Some(([x] + xs, rest'))
  }

  function ReadCommand(s: string): Option<(seq<string>, string)> {
    match ReadLength('*', s)
    case None => None
    case Some((n, rest)) => ReadBulks(n, rest)
  }

  lemma {:induction false} CutAfterDigits(digits: string, rest: string)
    requires forall i :: 0 <= i < |digits| ==> IsDigit(digits[i])
    ensures CutLine(digits + CRLF + rest) == Some((digits, rest))
  {
    var s := digits + CRLF + rest;
    if digits == "" {
      assert s[..2] == CRLF && s[2..] == rest;
    } else {
      CutAfterDigits(digits[1..], rest);
      assert s[1..] == digits[1..] + CRLF + rest;
      assert s[..1] + digits[1..] == digits;
      assert s[..2][0] != '\r';
    }
  }

  lemma ReadOneBulk(x: string, rest: string)
    ensures ReadBulk(Bulk(x) + rest) == Some((x, rest))
  {
    var s, body := Bulk(x) + rest, x + CRLF + rest;
    assert s[1..] == Decimal(|x|) + CRLF + body;
    CutAfterDigits(Decimal(|x|), body);
    ParseDecimal(|x|);
    assert ReadLength('$', s) == Some((|x|, body));
    assert body[..|x|] == x && body[|x|..|x| + 2] == CRLF && body[|x| + 2..] == rest;
  }

  lemma {:induction false} ReadAllBulks(args: seq<string>, rest: string)
    ensures ReadBulks(|args|, Bulks(args) + rest) == Some((args, rest))
  {
    if args == [] {
      assert Bulks(args) + rest == rest;
    } else {
      var rest' := Bulks(args[1..]) + rest;
      ReadAllBulks(args[1..], rest);
      assert ReadBulk(Bulks(args) + rest) == Some((args[0], rest')) by {
        ReadOneBulk(args[0], rest');
        Reassociate(Bulk(args[0]), Bulks(args[1..]), rest);
      }
      assert [args[0]] + args[1..] == args;
    }
  }

  lemma Reassociate(a: string, b: string, c: string)
    ensures (a + b) + c == a + (b + c)
  {}

  /** A framed command reads back as exactly its arguments, whatever bytes they hold, CRLF included. */
  lemma FrameReadsBack(args: seq<string>, rest: string)
    ensures ReadCommand(Frame(args) + rest) == Some((args, rest))
  {
    var s := Frame(args) + rest;
    assert s[1..] == Decimal(|args|) + CRLF + (Bulks(args) + rest);
    CutAfterDigits(Decimal(|args|), Bulks(args) + rest);
    ParseDecimal(|args|);
    assert ReadLength('*', s) == Some((|args|, Bulks(args) + rest));
    ReadAllBulks(args, rest);
  }

  lemma BulksOfTwo(x: string, y: string)
    ensures Bulks([x, y]) == Bulk(x) + Bulk(y)
  {
    assert [x, y][1..] == [y] && [y][1..] == [];
    assert Bulks([y]) == Bulk(y) + "" == Bulk(y);
  }

  lemma BulksOfThree(x: string, y: string, z: string)
    ensures Bulks([x, y, z]) == Bulk(x) + (Bulk(y) + Bulk(z))
  {
    BulksOfTwo(y, z);
    assert [x, y, z][1..] == [y, z];
  }

  lemma VerbBulk(x: string)
    requires |x| == 3
    ensures Decimal(2) == "2" && Decimal(3) == "3" && Bulk(x) == "$3\r\n" + x + "\r\n"
  {
    assert Decimal(3) == "3";
    assert "$" + "3" + CRLF == "$3\r\n";
  }

  /** What a lookup sends, spelled out. */
  lemma GetSpelled(k: string)
    ensures Frame(["GET", k]) == "*2\r\n" + ("$3\r\nGET\r\n" + Bulk(k))
  {
    BulksOfTwo("GET", k);
    VerbBulk("GET");
    assert "$3\r\n" + "GET" + "\r\n" == "$3\r\nGET\r\n";
    assert "*" + Decimal(2) + CRLF == "*2\r\n";
  }

  /** What a save sends, spelled out. */
  lemma SetSpelled(k: string, v: string)
    ensures Frame(["SET", k, v]) == "*3\r\n" + ("$3\r\nSET\r\n" + (Bulk(k) + Bulk(v)))
  {
    BulksOfThree("SET", k, v);
    VerbBulk("SET");
    assert "$3\r\n" + "SET" + "\r\n" == "$3\r\nSET\r\n";
    assert "*" + Decimal(3) + CRLF == "*3\r\n";
  }

  // ---- the client's reader ----

  datatype Answer = Text(value: string) | Failed

  /** The first line, its newline included, and the rest; None if no newline arrives. */
  function ReadString(s: string): Option<(string, string)> {
    if s == "" then None
    else if s[0] == '\n' then Some((s[..1], s[1..]))
    else
      match ReadString(s[1..])
      case None => None
      case Some((line, rest)) => Some((s[..1] + line, rest))
  }

  /** The longest prefix of digits. */
  function LeadingDigits(s: string): string {
    if s == "" || !IsDigit(s[0]) then "" else s[..1] + LeadingDigits(s[1..])
  }

  /** Sscanf("$%d") after the dollar sign: an optional sign, then digits; the rest of the line is ignored. */
  function ScanInt(s: string): Option<int> {
    var sign := if s != "" && s[0] == '-' then -1 else 1;
    var digits := LeadingDigits(if s != "" && (s[0] == '-' || s[0] == '+') then s[1..] else s);
    Signed(sign, ParseDigits(digits))
  }

  /** How doConn reads a reply; a nil bulk reads as the empty string. */
  function ReadReply(s: string): Answer {
    match ReadString(s)
    case None => Failed
    case Some((line, rest)) =>
      if line[..1] == "$" then
        var n := ScanInt(line[1..]);
        if n.None? then Failed
        else if n.value < 0 then Text("")
        else if |rest| < n.value + 2 then Failed
        else Text(rest[..n.value])
      else if line[..1] == "+" then Text("")
      else Failed
  }

  lemma {:induction false} LineOf(digits: string, rest: string)
    requires forall i :: 0 <= i < |digits| ==> IsDigit(digits[i])
    ensures ReadString(digits + CRLF + rest) == Some((digits + CRLF, rest))
    ensures LeadingDigits(digits + CRLF) == digits
  {
    var s := digits + CRLF + rest;
    if digits == "" {
      assert s == "\r\n" + rest && s[1..] == "\n" + rest && s[1..][1..] == rest;
      assert ReadString(s[1..]) == Some((s[1..][..1], s[1..][1..]));
      assert s[..1] + s[1..][..1] == CRLF;
    } else {
      LineOf(digits[1..], rest);
      assert s[1..] == digits[1..] + CRLF + rest;
      assert s[..1] + (digits[1..] + CRLF) == digits + CRLF;
      assert (digits + CRLF)[1..] == digits[1..] + CRLF;
      assert s[..1] + digits[1..] == digits;
    }
  }

  /** A bulk reply reads back as the stored value, whatever bytes it holds. */
  lemma BulkReadsBack(x: string)
    ensures ReadReply(Bulk(x)) == Text(x)
  {
    var digits := Decimal(|x|);
    LineOf(digits, x + CRLF);
    ParseDecimal(|x|);
    var s := Bulk(x);
    assert s[1..] == digits + CRLF + (x + CRLF);
    assert s[..1] + (digits + CRLF) == "$" + digits + CRLF;
    assert ReadString(s) == Some(("$" + digits + CRLF, x + CRLF));
    assert ("$" + digits + CRLF)[1..] == digits + CRLF;
    assert IsDigit(digits[0]) && (digits + CRLF)[0] == digits[0];
    assert ScanInt(digits + CRLF) == Some(|x|);
    assert (x + CRLF)[..|x|] == x;
  }

  // ---- the server ----

  function ExecuteDb(db: map<string, string>, args: seq<string>): map<string, string> {
    if |args| == 3 && args[0] == "SET" then db[args[1] := args[2]] else db
  }

  function ExecuteReply(db: map<string, string>, args: seq<string>): string {
    if |args| == 3 && args[0] == "SET" then "+OK\r\n"
    else if |args| == 2 && args[0] == "GET" then if args[1] in db then Bulk(db[args[1]]) else "$-1\r\n"
    else "-ERR\r\n"
  }

  /** What a GET answers once its reply is read: the value, or the empty string for a missing key. */
  lemma GetAnswer(db: map<string, string>, k: string)
    ensures ReadReply(ExecuteReply(db, ["GET", k])) == Text(if k in db then db[k] else "")
  {
    if k in db {
      BulkReadsBack(db[k]);
    } else {
      var s := "$-1\r\n";
      assert s[1..] == "-1\r\n" && s[2..] == "1\r\n";
      LineOf("1", "");
      assert "1\r\n" == "1" + CRLF + "";
      assert "1" + CRLF == "1\r\n";
      assert s[1..][1..] == "1\r\n";
      assert s[..1] + (s[1..][..1] + "1\r\n") == s;
      assert ReadString(s) == Some((s, ""));
      assert LeadingDigits("1\r\n") == "1" && ParseDigits("1") == Some(1);
    }
  }

  lemma SetAnswer(db: map<string, string>, k: string, v: string)
    ensures ReadReply(ExecuteReply(db, ["SET", k, v])) == Text("")
  {
    var s := "+OK\r\n";
    assert s[1..] == "OK\r\n" && s[1..][1..] == "K\r\n" && s[1..][1..][1..] == "\r\n";
    assert s[1..][1..][1..][1..] == "\n";
  }

  // ---- replies that are not answers ----

  predicate HasLine(s: string) {
    '\n' in s
  }

  lemma {:induction false} LineNeedsNewline(s: string)
    ensures ReadString(s).Some? <==> HasLine(s)
    ensures ReadString(s).Some? ==>
              var (line, rest) := ReadString(s).value; line + rest == s && line != "" && line[0] == s[0]
  {
    if s == "" {
    } else {
      LineNeedsNewline(s[1..]);
      assert s == s[..1] + s[1..];
    }
  }

  /** Only a bulk or a status reply is an answer: an error, or a reply cut short in its first line, is a failure. */
  lemma AnswersAreBulksOrStatuses(s: string)
    ensures ReadReply(s).Text? ==> HasLine(s) && (s[0] == '$' || s[0] == '+')
    ensures HasLine(s) && s[0] == '+' ==> ReadReply(s) == Text("")
  {
    LineNeedsNewline(s);
    if HasLine(s) {
      var (line, _) := ReadString(s).value;
      assert line[..1] == [s[0]];
    }
  }

  lemma {:induction false} NoNewlineInDigits(digits: string)
    requires forall i :: 0 <= i < |digits| ==> IsDigit(digits[i])
    ensures !HasLine("$" + digits + "\r")
  {}

  /** A bulk reply that breaks off anywhere is a failure, not a shorter value. */
  lemma ShortBulkFails(x: string, k: nat)
    requires k < |Bulk(x)|
    ensures ReadReply(Bulk(x)[..k]) == Failed
  {
    var digits := Decimal(|x|);
    var head := "$" + digits + CRLF;
    var s := Bulk(x)[..k];
    assert Bulk(x) == head + (x + CRLF);
    if k < |head| {
      NoNewlineInDigits(digits);
      assert head[..|head| - 1] == "$" + digits + "\r";
      assert s == head[..|head| - 1][..k];
      LineNeedsNewline(s);
    } else {
      var tail := (x + CRLF)[..k - |head|];
      assert s == head + tail;
      ShortBodyFails(digits, tail, |x|);
    }
  }

  lemma {:induction false} ShortBodyFails(digits: string, tail: string, n: nat)
    requires digits == Decimal(n) && |tail| < n + 2
    ensures ReadReply("$" + digits + CRLF + tail) == Failed
  {
    LineOf(digits, tail);
    ParseDecimal(n);
    var s := "$" + digits + CRLF + tail;
    assert s[1..] == digits + CRLF + tail;
    assert s[..1] + (digits + CRLF) == "$" + digits + CRLF;
    assert ReadString(s) == Some(("$" + digits + CRLF, tail));
    assert ("$" + digits + CRLF)[1..] == digits + CRLF;
    assert IsDigit(digits[0]) && (digits + CRLF)[0] == digits[0];
    assert ScanInt(digits + CRLF) == Some(n);
  }
}
