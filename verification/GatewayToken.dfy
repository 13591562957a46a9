/** Verification of gateway tokens: `user:expiry:signature`. */
module GatewayToken {
  import opened Text

  /** What parsing a floating-point literal can give. */
  datatype Number = Finite(value: real) | PlusInfinity | MinusInfinity | NotANumber

  datatype Reason = Missing | BadFormat | BadExpiry | Expired | BadSignature

  /** `Raised` stands for the TypeError of comparing strings that are not ASCII. */
  datatype Verdict = Valid(user: string) | Invalid(reason: Reason) | Raised

  /** The outside world: the clock, the text functions of the language, float parsing and
      the keyed signature. */
  datatype World = World(now: real, strip: string -> string, lower: string -> string,
                         parse: string -> Option<Number>, sign: (string, string) -> string)

  /** The clock is past the epoch, "0" is zero, and there is nothing to strip from nothing. */
  predicate Usual(w: World) {
    w.now > 0.0 && w.parse("0") == Some(Finite(0.0)) && w.strip("") == ""
  }

  predicate Ascii(s: string) {
    forall i :: 0 <= i < |s| ==> s[i] < '\U{80}'
  }

  /** The last position of `c`. */
  function LastIndex(s: string, c: char): (i: Option<nat>)
    ensures i.None? <==> c !in s
    ensures i.Some? ==> i.value < |s| && s[i.value] == c && c !in s[i.value + 1..]
  {
    if s == "" then None
    else if s[|s| - 1] == c then Some(|s| - 1)
    else
      assert s == s[..|s| - 1] + [s[|s| - 1]];
      LastIndex(s[..|s| - 1], c)
  }

  /** `s.rsplit(c, n)` */
  function RSplit(s: string, c: char, n: nat): (parts: seq<string>)
    ensures 1 <= |parts| <= n + 1
  {
    var i := LastIndex(s, c);
    if n == 0 || i.None? then [s] else RSplit(s[..i.value], c, n - 1) + [s[i.value + 1..]]
  }

  /** `s.split(c)` */
  function Split(s: string, c: char): (parts: seq<string>)
    ensures |parts| >= 1
    decreases |s|
  {
    var i := LastIndex(s, c);
    if i.None? then [s] else Split(s[..i.value], c) + [s[i.value + 1..]]
  }

  function Late(now: real, expiry: Number): bool {
    match expiry
    case Finite(t) => now > t
    case PlusInfinity => false
    case MinusInfinity => true
    case NotANumber => false
  }

  datatype Fields = Fields(user: string, expires: string, payload: string, sig: string)

  /** How a stripped token is taken apart. */
  function Parse(t: string): Fields {
    if ':' in t then
      var parts := RSplit(t, ':', 2);
      if |parts| == 3 then Fields(parts[0], parts[1], parts[0] + ":" + parts[1], parts[2])
      else if |parts| == 2 then Fields(parts[0], "0", parts[0], parts[1])
      else Fields("", "", "", "")
    else if '.' in t then
      var parts := RSplit(t, '.', 1);
      if |parts| == 2 then
        var subParts := Split(parts[0], ':');
        Fields(subParts[0], if |subParts| > 1 then subParts[1] else "0", parts[0], parts[1])
      else Fields("", "", "", "")
    else Fields("", "", "", "")
  }

  function Verify(token: string, secret: string, w: World): Verdict {
    if token == "" || secret == "" then Invalid(Missing)
    else
      var f := Parse(w.strip(token));
      if f.sig == "" || f.payload == "" || f.expires == "" then Invalid(BadFormat)
      else
        match w.parse(f.expires)
        case None => Invalid(BadExpiry)
        case Some(expiry) =>
          var actual, expected := w.lower(f.sig), w.lower(w.sign(secret, f.payload));
          if Late(w.now, expiry) then Invalid(Expired)
          else if !Ascii(actual) || !Ascii(expected) then Raised
          else if actual != expected then Invalid(BadSignature)
          else Valid(f.user)
  }

  // ----- What is accepted -----

  function Print(user: string, expires: string, sig: string): string {
    user + ":" + expires + ":" + sig
  }

  /** The three-part form, complete and unexpired. */
  ghost predicate Live(t: string, user: string, expires: string, sig: string, w: World) {
    && t == Print(user, expires, sig)
    && expires != "" && sig != "" && ':' !in expires && ':' !in sig
    && w.parse(expires).Some? && !Late(w.now, w.parse(expires).value)
  }

  /** Both signatures, the given and the expected one, can be compared. */
  predicate Comparable(user: string, expires: string, sig: string, secret: string, w: World) {
    Ascii(w.lower(sig)) && Ascii(w.lower(w.sign(secret, user + ":" + expires)))
  }

  /** Live and signed. */
  ghost predicate Sealed(t: string, user: string, expires: string, sig: string, secret: string, w: World) {
    && Live(t, user, expires, sig, w)
    && Comparable(user, expires, sig, secret, w)
    && w.lower(sig) == w.lower(w.sign(secret, user + ":" + expires))
  }

  lemma {:induction false} LastIndexAt(a: string, c: char, b: string)
    requires c !in b
    ensures LastIndex(a + [c] + b, c) == Some(|a|)
  {
    if b != "" {
      var init := b[..|b| - 1];
      assert (a + [c] + b)[..|a| + |b|] == a + [c] + init;
      LastIndexAt(a, c, init);
    }
  }

  /** Splitting undoes printing, even for a user name with colons. */
  lemma ParsePrinted(user: string, expires: string, sig: string)
    requires ':' !in expires && ':' !in sig
    ensures Parse(Print(user, expires, sig)) == Fields(user, expires, user + ":" + expires, sig)
  {
    var t, head := Print(user, expires, sig), user + ":" + expires;
    LastIndexAt(head, ':', sig);
    LastIndexAt(user, ':', expires);
    assert t == head + ":" + sig;
    assert t[..|head|] == head && t[|head| + 1..] == sig;
    assert head[..|user|] == user && head[|user| + 1..] == expires;
    assert ':' in t;
    assert RSplit(user, ':', 0) == [user];
    assert RSplit(head, ':', 1) == [user] + [expires];
    assert RSplit(t, ':', 2) == [user] + [expires] + [sig];
  }

  /** One cut from the right. */
  lemma RSplitCut(s: string, c: char, n: nat) returns (left: string, right: string)
    requires n > 0 && c in s
    ensures s == left + [c] + right && c !in right
    ensures RSplit(s, c, n) == RSplit(left, c, n - 1) + [right]
  {
    var i := LastIndex(s, c).value;
    left, right := s[..i], s[i + 1..];
  }

  /** A token with at least two colons is of the printed form. */
  lemma ParseThree(t: string)
    ensures var parts := RSplit(t, ':', 2);
            |parts| == 3 ==> t == Print(parts[0], parts[1], parts[2]) && ':' !in parts[1] && ':' !in parts[2]
  {
    var parts := RSplit(t, ':', 2);
    if |parts| == 3 {
      var head, sig := RSplitCut(t, ':', 2);
      var user, expires := RSplitCut(head, ':', 1);
      assert parts == [user, expires, sig] by {
        assert RSplit(user, ':', 0) == [user];
      }
    }
  }

  /** Apart from the three-part form, every token gets the expiry "0". */
  lemma OtherFormsExpireAtZero(t: string)
    ensures (':' in t && |RSplit(t, ':', 2)| == 3) || Parse(t).expires == "0" || Parse(t) == Fields("", "", "", "")
  {
    if ':' !in t && '.' in t {
      var parts := RSplit(t, '.', 1);
      var i := LastIndex(t, '.').value;
      assert RSplit(t[..i], '.', 0) == [t[..i]];
      assert parts == [t[..i]] + [t[i + 1..]];
      assert ':' !in t[..i];
    }
  }

  /** What a live token gets, and that nothing else is accepted or raises. */
  lemma LiveVerdict(token: string, secret: string, w: World, user: string, expires: string, sig: string)
    requires Usual(w) && secret != "" && Live(w.strip(token), user, expires, sig, w)
    ensures Verify(token, secret, w) ==
              if !Comparable(user, expires, sig, secret, w) then Raised
              else if Sealed(w.strip(token), user, expires, sig, secret, w) then Valid(user)
              else Invalid(BadSignature)
  {
    hide Parse, RSplit, Ascii;
    ParsePrinted(user, expires, sig);
    assert Print(user, expires, sig) != "";
  }

  lemma OnlyLiveTokens(token: string, secret: string, w: World)
    returns (user: string, expires: string, sig: string)
    requires Usual(w) && (Verify(token, secret, w).Valid? || Verify(token, secret, w).Raised?)
    ensures secret != "" && Live(w.strip(token), user, expires, sig, w)
  {
    hide RSplit, LastIndex, Print, Ascii;
    var t := w.strip(token);
    OtherFormsExpireAtZero(t);
    ParseThree(t);
    var parts := RSplit(t, ':', 2);
    assert |parts| == 3;
    user, expires, sig := parts[0], parts[1], parts[2];
  }

  /** Exactly the live tokens with a matching signature are accepted, for the user they
      name; the two-part and dot forms never are. */
  lemma AcceptsExactlySealed(token: string, secret: string, w: World, user: string)
    requires Usual(w)
    ensures Verify(token, secret, w) == Valid(user) <==>
              secret != "" && exists expires, sig :: Sealed(w.strip(token), user, expires, sig, secret, w)
  {
    hide Print, Parse, Verify, Comparable;
    if Verify(token, secret, w) == Valid(user) {
      var u, e, s := OnlyLiveTokens(token, secret, w);
      LiveVerdict(token, secret, w, u, e, s);
    }
    if expires, sig :| secret != "" && Sealed(w.strip(token), user, expires, sig, secret, w) {
      LiveVerdict(token, secret, w, user, expires, sig);
    }
  }

  /** Verification raises instead of answering exactly on the live tokens with a signature
      that is not ASCII (or when the expected one is not). */
  lemma RaisesExactlyIncomparable(token: string, secret: string, w: World)
    requires Usual(w)
    ensures Verify(token, secret, w).Raised? <==>
              secret != "" && exists user, expires, sig ::
                Live(w.strip(token), user, expires, sig, w) && !Comparable(user, expires, sig, secret, w)
  {
    hide Print, Parse, Verify, Comparable;
    if Verify(token, secret, w).Raised? {
      var u, e, s := OnlyLiveTokens(token, secret, w);
      LiveVerdict(token, secret, w, u, e, s);
    }
    if user, expires, sig :| secret != "" && Live(w.strip(token), user, expires, sig, w)
                             && !Comparable(user, expires, sig, secret, w) {
      LiveVerdict(token, secret, w, user, expires, sig);
    }
  }

  // ----- In plain terms -----

  /** Every verdict on a three-part token, from its expiry and its signature. */
  lemma PlainVerdict(token: string, user: string, expires: string, sig: string, secret: string, w: World)
    requires token != "" && secret != "" && w.strip(token) == user + ":" + expires + ":" + sig
    requires ':' !in expires && ':' !in sig
    ensures var given, expected := w.lower(sig), w.lower(w.sign(secret, user + ":" + expires));
            var ascii := (forall c :: c in given ==> c < '\U{80}') && forall c :: c in expected ==> c < '\U{80}';
            var checked := if !ascii then Raised else if given == expected then Valid(user) else Invalid(BadSignature);
            Verify(token, secret, w) ==
              if expires == "" || sig == "" then Invalid(BadFormat)
              else
                match w.parse(expires)
                case None => Invalid(BadExpiry)
                case Some(Finite(t)) => if w.now > t then Invalid(Expired) else checked
                case Some(MinusInfinity) => Invalid(Expired)
                case Some(_) => checked
  {
    hide Parse, Ascii;
    ParsePrinted(user, expires, sig);
    AsciiMeaning(w.lower(sig));
    AsciiMeaning(w.lower(w.sign(secret, user + ":" + expires)));
    assert w.strip(token) == Print(user, expires, sig);
    assert user + ":" + expires != "";
  }

  lemma AsciiMeaning(s: string)
    ensures Ascii(s) <==> forall c :: c in s ==> c < '\U{80}'
  {
    assert forall i :: 0 <= i < |s| ==> s[i] in s;
  }

  /** Tokens expire: past a finite expiry the verdict is "expired" whatever the signature, and
      until then a signed token is accepted. */
  lemma TokensExpire(user: string, expires: string, sig: string, secret: string, w: World, t: real)
    requires secret != "" && expires != "" && sig != "" && ':' !in expires && ':' !in sig
    requires w.strip(user + ":" + expires + ":" + sig) == user + ":" + expires + ":" + sig
    requires w.parse(expires) == Some(Finite(t))
    ensures w.now > t ==> Verify(user + ":" + expires + ":" + sig, secret, w) == Invalid(Expired)
    ensures w.now <= t && w.lower(sig) == w.lower(w.sign(secret, user + ":" + expires))
            && (forall c :: c in w.lower(sig) ==> c < '\U{80}')
            ==> Verify(user + ":" + expires + ":" + sig, secret, w) == Valid(user)
  {
    hide Verify;
    PlainVerdict(user + ":" + expires + ":" + sig, user, expires, sig, secret, w);
  }

  /** Nothing is missing, or that is the verdict; and a text without colon and dot is no token. */
  lemma FormlessRejected(token: string, secret: string, w: World)
    ensures Verify(token, secret, w) == Invalid(Missing) <==> token == "" || secret == ""
    ensures token != "" && secret != "" && ':' !in w.strip(token) && '.' !in w.strip(token) ==>
              Verify(token, secret, w) == Invalid(BadFormat)
  {
  }

  /** Whatever is accepted has an expiry that is finite and not past, infinite, or not a
      number, and carries the signature of its own user and expiry. */
  lemma AcceptedMeaning(token: string, secret: string, w: World) returns (expires: string, sig: string)
    requires Usual(w) && Verify(token, secret, w).Valid?
    ensures var user := Verify(token, secret, w).user;
            && w.strip(token) == user + ":" + expires + ":" + sig
            && w.lower(sig) == w.lower(w.sign(secret, user + ":" + expires))
            && match w.parse(expires)
               case Some(Finite(t)) => w.now <= t
               case Some(PlusInfinity) => true
               case Some(NotANumber) => true
               case _ => false
  {
    hide Verify;
    var user := Verify(token, secret, w).user;
    AcceptsExactlySealed(token, secret, w, user);
    expires, sig :| Sealed(w.strip(token), user, expires, sig, secret, w);
  }

  /** Round trip: a printed token without outer white space is accepted and gives its user back. */
  lemma PrintedTokenAccepted(user: string, expires: string, sig: string, secret: string, w: World)
    requires Usual(w) && secret != "" && Sealed(Print(user, expires, sig), user, expires, sig, secret, w)
    requires w.strip(Print(user, expires, sig)) == Print(user, expires, sig)
    ensures Verify(Print(user, expires, sig), secret, w) == Valid(user)
  {
    AcceptsExactlySealed(Print(user, expires, sig), secret, w, user);
  }

  /** The documented form `user:expiry.signature`, with a colon-free user, is always
      rejected as expired: it has one colon, so the expiry is read as "0". */
  lemma DotFormRejected(token: string, user: string, rest: string, secret: string, w: World)
    requires Usual(w) && secret != "" && w.strip(token) == user + ":" + rest
    requires ':' !in user && ':' !in rest && user != "" && rest != ""
    ensures Verify(token, secret, w) == Invalid(Expired)
  {
    hide Ascii;
    var t := user + ":" + rest;
    LastIndexAt(user, ':', rest);
    assert t[..|user|] == user && t[|user| + 1..] == rest;
    assert RSplit(user, ':', 1) == [user];
    assert RSplit(t, ':', 2) == [user] + [rest];
  }

  /** With any user, colons or not, the documented form `payload.signature` is never
      accepted, since no digest holds a dot. */
  lemma DotFormNeverAccepted(token: string, payload: string, sig: string, secret: string, w: World)
    requires Usual(w) && w.strip(token) == payload + "." + sig && ':' !in sig
    requires forall p :: '.' !in w.lower(w.sign(secret, p))
    requires forall s :: '.' in s ==> '.' in w.lower(s)
    ensures !Verify(token, secret, w).Valid?
  {
    hide Verify, Live, Comparable;
    var t := w.strip(token);
    if Verify(token, secret, w).Valid? {
      AcceptsExactlySealed(token, secret, w, Verify(token, secret, w).user);
      var user := Verify(token, secret, w).user;
      var expires, last :| Sealed(t, user, expires, last, secret, w);
      TailHoldsDot(t, payload, sig, user, expires, last, w);
      assert false;
    }
  }

  lemma TailHoldsDot(t: string, payload: string, sig: string, user: string, expires: string, last: string, w: World)
    requires t == payload + "." + sig && ':' !in sig
    requires Live(t, user, expires, last, w)
    ensures '.' in last
  {
    var colon := |user| + 1 + |expires|;
    assert t[colon] == ':' && t[|payload|] == '.';
    assert forall i :: |payload| < i < |t| ==> t[i] == sig[i - |payload| - 1];
    assert t[|payload|] == last[|payload| - colon - 1];
  }
}
