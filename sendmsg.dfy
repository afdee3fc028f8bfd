// The portal client of SendMsgAPI.py: the credentials it reads from the configuration and
// the verdicts it draws from the portal's responses. The HTTP exchange itself is reduced to
// its outcome per request.

module SendMsg {
  import opened Text
  import Options

  /** The outcome of one HTTP request: `Failed` stands for any exception on the way
      (connection, timeout, an error status from `raise_for_status`, a file that cannot
      be read), `Body` for a successful response with its text. */
  datatype Response = Failed | Body(text: string)

  /** `login`: the cabinet page, then the authentication request, then, only when its
      body is exactly `1`, the cabinet again; any exception means `False`. The same rule
      is `BonchAPI.login`. */
  function LoggedIn(cabinet: Response, auth: Response, confirm: Response): (r: bool)
    ensures r <==> cabinet.Body? && auth == Body("1") && confirm.Body?
  {
    match cabinet
    case Failed => false
    case Body(_) =>
      match auth
      case Failed => false
      case Body(text) => if text == "1" then confirm.Body? else false
  }

  /** `send_msg`: sent exactly when the response body is empty. */
  function Sent(response: Response): (r: bool)
    ensures r <==> response == Body("")
  {
    match response
    case Failed => false
    case Body(text) => text == ""
  }

  // ---------------------------------------------------------------- upload_file

  /** The literal part of the pattern `data\.idinfo = "(\d+)"`. */
  const Marker: string := "data.idinfo = \""

  /** The length of the run of ASCII digits starting at `i`. */
  function DigitRun(s: string, i: nat): (n: nat)
    requires i <= |s|
    ensures i + n <= |s| && AllDigits(s[i..i + n])
    ensures i + n < |s| ==> !IsDigit(s[i + n])
    decreases |s| - i
  {
    if i < |s| && IsDigit(s[i]) then
      var n := 1 + DigitRun(s, i + 1);
      assert s[i..i + n] == [s[i]] + s[i + 1..i + n];
      n
    else 0
  }

  /** The pattern matches at position `p`: the marker, at least one digit, a quote. The
      digit run is maximal, and a digit is never a quote, so the greedy `\d+` can only
      match the whole run. */
  predicate MatchAt(s: string, p: nat) {
    p + |Marker| <= |s| && s[p..p + |Marker|] == Marker &&
    var d := DigitRun(s, p + |Marker|);
    d >= 1 && p + |Marker| + d < |s| && s[p + |Marker| + d] == '"'
  }

  /** The captured digits of the match at `p`. */
  function Captured(s: string, p: nat): (ds: string)
    requires MatchAt(s, p)
    ensures AllDigits(ds)
  {
    s[p + |Marker|..p + |Marker| + DigitRun(s, p + |Marker|)]
  }

  /** `re.search` from position `p`: the value of the leftmost match. */
  function Search(s: string, p: nat): Option<nat>
    decreases |s| - p
  {
    if p >= |s| then None
    else if MatchAt(s, p) then Some(DigitsValue(Captured(s, p)))
    else Search(s, p + 1)
  }

  /** `upload_file`: the integer read from the first `data.idinfo = "<digits>"`, and 0
      when anything fails, including a response without a match (`match.group` on
      `None` raises). */
  function UploadedId(response: Response): (r: nat)
    ensures response.Failed? ==> r == 0
  {
    match response
    case Failed => 0
    case Body(text) =>
      match Search(text, 0)
      case None => 0
      case Some(v) => v
  }

  /** Positions where no match starts are skipped. */
  lemma {:induction false} SearchSkips(s: string, p: nat, q: nat)
    requires p <= q <= |s|
    requires forall i :: p <= i < q ==> !MatchAt(s, i)
    ensures Search(s, p) == Search(s, q)
    decreases q - p
  {
    if p < q {
      SearchSkips(s, p + 1, q);
    }
  }

  /** The pattern matches where the marker is followed by digits and a quote. */
  lemma MatchAfter(a: string, ds: string, b: string)
    requires ds != [] && AllDigits(ds)
    ensures MatchAt(a + Marker + ds + "\"" + b, |a|)
    ensures Captured(a + Marker + ds + "\"" + b, |a|) == ds
  {
    var s := a + Marker + ds + "\"" + b;
    var p := |a|;
    var at := p + |Marker|;
    var t := Marker + ds + "\"" + b;
    assert s == a + t;
    assert s[p..] == t;
    assert s[p..at] == t[..|Marker|] == Marker;
    assert s[at..at + |ds|] == t[|Marker|..|Marker| + |ds|] == ds;
    assert s[at + |ds|] == t[|Marker| + |ds|] == '"';
    DigitRunOf(s, at, |ds|);
  }

  /** A response carrying `data.idinfo = "n"`, with no `d` before it, yields `n`. */
  lemma UploadedIdOf(a: string, n: nat, b: string)
    requires 'd' !in a
    ensures UploadedId(Body(a + Marker + NatText(n) + "\"" + b)) == n
  {
    var s := a + Marker + NatText(n) + "\"" + b;
    forall i | 0 <= i < |a| ensures !MatchAt(s, i) {
      assert s[i] == a[i] != 'd';
    }
    SearchSkips(s, 0, |a|);
    MatchAfter(a, NatText(n), b);
  }

  /** The digit run starting at `i` has length `n` when `n` digits are followed by a
      non-digit. */
  lemma {:induction false} DigitRunOf(s: string, i: nat, n: nat)
    requires i + n < |s| && AllDigits(s[i..i + n]) && !IsDigit(s[i + n])
    ensures DigitRun(s, i) == n
    decreases n
  {
    if n > 0 {
      assert s[i] == s[i..i + n][0];
      assert s[i + 1..i + n] == s[i..i + n][1..];
      DigitRunOf(s, i + 1, n - 1);
    }
  }

  /** A response without a quote after the marker never yields an id. */
  lemma {:induction false} NoQuoteNoId(s: string, p: nat)
    requires '"' !in s
    ensures Search(s, p) == None
    decreases |s| - p
  {
    if p < |s| {
      NoQuoteNoId(s, p + 1);
    }
  }

  // ---------------------------------------------------------------- SendMsgAPI

  /** The client object: its portal credentials, read from the configuration lines. */
  class SendMsgAPI {
    var email: string
    var password: string

    /** `login` and `password` from the configuration, the empty string when absent. */
    constructor(lines: seq<string>)
      ensures email == Options.Get(Options.Collect(lines), "login", "")
      ensures password == Options.Get(Options.Collect(lines), "password", "")
    {
      var options := Options.ReadLines(lines);
      email := Options.Get(options, "login", "");
      password := Options.Get(options, "password", "");
    }
  }
}
