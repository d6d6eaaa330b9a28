/**
 One-click unsubscribe: the token, the link that carries it in a message, and
 the `List-Unsubscribe` header (RFC 8058) made from that link.
 */
module Unsubscribe {
  import opened Options
  import opened Base64Url
  import opened Text

  const MAC_LEN := 16
  const USER_LEN := 16
  const TOKEN_LEN := 44

  type UserId = u: seq<Byte> | |u| == USER_LEN witness seq(USER_LEN, _ => 0)

  datatype Category = Security | Account | Bands | Announcements | ProductUpdates | Marketing

  function Index(c: Category): Byte {
    match c
    case Security => 0
    case Account => 1
    case Bands => 2
    case Announcements => 3
    case ProductUpdates => 4
    case Marketing => 5
  }

  function FromIndex(i: Byte): Option<Category> {
    match i
    case 0 => Some(Security)
    case 1 => Some(Account)
    case 2 => Some(Bands)
    case 3 => Some(Announcements)
    case 4 => Some(ProductUpdates)
    case 5 => Some(Marketing)
    case _ => None
  }

  predicate Locked(c: Category) {
    c.Security?
  }

  /** HMAC-SHA256 under the server's key: any function with 32-byte results. */
  type Hmac = seq<Byte> -> seq<Byte>

  ghost predicate IsHmac(hmac: Hmac) {
    forall message: seq<Byte> :: |hmac(message)| == 32
  }

  // ----- tokens ------------------------------------------------------------

  function Mac(hmac: Hmac, user: UserId, category: Category): seq<Byte>
    requires IsHmac(hmac)
  {
    hmac(user + [Index(category)])[..MAC_LEN]
  }

  function Token(hmac: Hmac, user: UserId, category: Category): string
    requires IsHmac(hmac)
  {
    Encode(user + [Index(category)] + Mac(hmac, user, category))
  }

  method ComputeMac(hmac: Hmac, user: UserId, category: Category) returns (full: seq<Byte>)
    requires IsHmac(hmac)
    ensures full == Mac(hmac, user, category)
  {
    var message: seq<Byte> := user;
    message := message + [Index(category)];
    full := hmac(message);
    full := full[..MAC_LEN];
  }

  /** Verifies a token: malformed, forged and locked ones are all `None`. */
  function Parse(hmac: Hmac, token: string): Option<(UserId, Category)>
    requires IsHmac(hmac)
  {
    var bytes := Decode(Trim(token));
    if bytes.None? || |bytes.value| != USER_LEN + 1 + MAC_LEN then None
    else
      var user: UserId := bytes.value[..USER_LEN];
      var category := FromIndex(bytes.value[USER_LEN]);
      if category.None? then None
      else if Locked(category.value) || bytes.value[USER_LEN + 1..] != Mac(hmac, user, category.value) then None
      else Some((user, category.value))
  }

  lemma IndexRoundTrip(c: Category, i: Byte)
    ensures FromIndex(Index(c)) == Some(c)
    ensures FromIndex(i).Some? ==> Index(FromIndex(i).value) == i
  {}

  /** A token is accepted as `(user, category)` exactly if, spaces around it
      aside, it is the token of that user for that category, which can be
      unsubscribed from. */
  lemma AcceptedExactly(hmac: Hmac, token: string, user: UserId, category: Category)
    requires IsHmac(hmac)
    ensures Parse(hmac, token) == Some((user, category))
      <==> Trim(token) == Token(hmac, user, category) && category != Security
  {
    var mac := Mac(hmac, user, category);
    var expected := user + [Index(category)] + mac;
    DecodesExactlyItsEncoding(Trim(token), expected);
    IndexRoundTrip(category, 0);
    if Parse(hmac, token) == Some((user, category)) {
      var bytes := Decode(Trim(token)).value;
      IndexRoundTrip(category, bytes[USER_LEN]);
      assert bytes == bytes[..USER_LEN] + [bytes[USER_LEN]] + bytes[USER_LEN + 1..];
    }
    if Trim(token) == Token(hmac, user, category) {
      assert expected[..USER_LEN] == user;
      assert expected[USER_LEN + 1..] == mac;
    }
  }

  lemma TokenIsPlain(hmac: Hmac, user: UserId, category: Category)
    requires IsHmac(hmac)
    ensures var token := Token(hmac, user, category);
      token != [] && Trim(token) == token && forall c :: c in token ==> !IsWhitespace(c) && c != '&' && c != '/'
  {
    EncodedChars(user + [Index(category)] + Mac(hmac, user, category));
    NothingToTrim(Token(hmac, user, category));
  }

  /** Every token switches off what it was made for, unless that is locked. */
  lemma TokensRoundTrip(hmac: Hmac, user: UserId, category: Category)
    requires IsHmac(hmac)
    ensures Parse(hmac, Token(hmac, user, category)) == if category == Security then None else Some((user, category))
  {
    var token := Token(hmac, user, category);
    TokenIsPlain(hmac, user, category);
    AcceptedExactly(hmac, token, user, category);
    var parsed := Parse(hmac, token);
    if parsed.Some? {
      AcceptedExactly(hmac, token, parsed.value.0, parsed.value.1);
      TokensDiffer(hmac, user, category, parsed.value.0, parsed.value.1);
    }
  }

  /** No two users or categories share a token. */
  lemma TokensDiffer(hmac: Hmac, user: UserId, category: Category, user': UserId, category': Category)
    requires IsHmac(hmac) && Token(hmac, user, category) == Token(hmac, user', category')
    ensures user == user' && category == category'
  {
    var a := user + [Index(category)] + Mac(hmac, user, category);
    var b := user' + [Index(category')] + Mac(hmac, user', category');
    DecodesExactlyItsEncoding(Encode(a), a);
    DecodesExactlyItsEncoding(Encode(a), b);
    assert a == b;
    assert a[..USER_LEN] == user && b[..USER_LEN] == user';
    assert a[USER_LEN] == Index(category) && b[USER_LEN] == Index(category');
    IndexRoundTrip(category, 0);
    IndexRoundTrip(category', 0);
  }

  /** Every category has its number. */
  predicate IsNumber(n: Byte, category: Category) {
    n < 6 && category == [Security, Account, Bands, Announcements, ProductUpdates, Marketing][n]
  }

  /** Read back, a token is the user, the category's number, and the first half of what
      the server's key makes of both. */
  lemma TokenHolds(hmac: Hmac, user: UserId, category: Category, n: Byte)
    requires IsHmac(hmac) && IsNumber(n, category)
    ensures Decode(Token(hmac, user, category)) == Some(user + [n] + hmac(user + [n])[..16])
  {
    DecodesExactlyItsEncoding(Token(hmac, user, category), user + [n] + hmac(user + [n])[..16]);
  }

  lemma TokenLength(hmac: Hmac, user: UserId, category: Category)
    requires IsHmac(hmac)
    ensures |Token(hmac, user, category)| == TOKEN_LEN
  {
    EncodedLength(user + [Index(category)] + Mac(hmac, user, category));
  }

  /** Writes a token: characters a link can carry as they are, and accepted for
      what it was made for. */
  method ComputeToken(hmac: Hmac, user: UserId, category: Category) returns (token: string)
    requires IsHmac(hmac)
    ensures token == Token(hmac, user, category)
    ensures |token| == TOKEN_LEN && forall c :: c in token ==> DigitOf(c).Some?
    ensures Parse(hmac, token) == if category == Security then None else Some((user, category))
  {
    TokenLength(hmac, user, category);
    TokensRoundTrip(hmac, user, category);
    EncodedChars(user + [Index(category)] + Mac(hmac, user, category));
    var bytes: seq<Byte> := user;
    bytes := bytes + [Index(category)];
    var mac := ComputeMac(hmac, user, category);
    bytes := bytes + mac;
    token := Encode(bytes);
  }

  // ----- links and headers -------------------------------------------------

  const PARAMETER := "token"
  const WORD := PARAMETER + "="
  const PAGE := "unsubscribe"

  function Page(token: string): string {
    PAGE + ['?'] + (WORD + token)
  }

  function Link(base: string, locale: string, token: string): string {
    TrimEndOf(base, '/') + ['/'] + (locale + ['/'] + Page(token))
  }

  /** What comes before and after the first `word`. */
  function SplitOnce(s: string, word: string): Option<(string, string)> {
    if StartsWith(s, word) then Some(([], s[|word|..]))
    else if s == [] then None
    else
      var rest := SplitOnce(s[1..], word);
      if rest.Some? then Some(([s[0]] + rest.value.0, rest.value.1)) else None
  }

  predicate IsAmp(c: char) {
    c == '&'
  }

  /** The token a link carries, as the header is made from it. */
  function ReadToken(webUrl: string): Option<string> {
    var split := SplitOnce(webUrl, WORD);
    if split.None? then None
    else
      var token := TakeUntil(split.value.1, IsAmp);
      if token == [] then None else Some(token)
  }

  function ListUnsubscribe(webUrl: string, api: Option<string>): (string, bool) {
    var token := ReadToken(webUrl);
    if api.Some? && token.Some? then
      ("<" + TrimEndOf(api.value, '/') + "/api/v1/public/email/unsubscribe/one-click?token=" + token.value
       + ">, <" + webUrl + ">", true)
    else ("<" + webUrl + ">", false)
  }

  /** A word cannot reach across a character it does not have. */
  lemma {:induction false} SplitOnceAcross(a: string, c: char, b: string, word: string)
    requires c !in word && word != []
    ensures SplitOnce(a + [c] + b, word) ==
      if SplitOnce(a, word).Some? then Some((SplitOnce(a, word).value.0, SplitOnce(a, word).value.1 + [c] + b))
      else if SplitOnce(b, word).Some? then Some((a + [c] + SplitOnce(b, word).value.0, SplitOnce(b, word).value.1))
      else None
  {
    var s := a + [c] + b;
    StartsAcross(a, c, b, word);
    if StartsWith(a, word) {
      assert s[|word|..] == a[|word|..] + [c] + b;
    } else if a == [] {
      assert s[1..] == b;
      assert SplitOnce(b, word).Some? ==> a + [c] + SplitOnce(b, word).value.0 == [c] + SplitOnce(b, word).value.0;
    } else {
      assert s[1..] == a[1..] + [c] + b;
      SplitOnceAcross(a[1..], c, b, word);
      assert SplitOnce(b, word).Some? ==>
        [a[0]] + (a[1..] + [c] + SplitOnce(b, word).value.0) == a + [c] + SplitOnce(b, word).value.0;
    }
  }

  lemma StartsAcross(a: string, c: char, b: string, word: string)
    requires c !in word
    ensures StartsWith(a + [c] + b, word) <==> StartsWith(a, word)
  {
    var s := a + [c] + b;
    if |word| <= |a| {
      assert s[..|word|] == a[..|word|];
    } else if |word| <= |s| {
      assert s[..|word|][|a|] == c;
    }
  }

  lemma {:induction false} SplitOnceAbsent(s: string, word: string)
    requires word != [] && word[0] !in s
    ensures SplitOnce(s, word).None?
  {
    if s != [] {
      SplitOnceAbsent(s[1..], word);
    }
  }

  lemma TailSplits(head: string, c: char, word: string, tail: string)
    requires word != [] && word[0] !in head && c !in word
    ensures var split := SplitOnce(head + [c] + (word + tail), word); split.Some? && split.value.1 == tail
  {
    assert StartsWith(word + tail, word) && (word + tail)[|word|..] == tail;
    SplitOnceAbsent(head, word);
    SplitOnceAcross(head, c, word + tail, word);
  }

  lemma PageSplits(token: string)
    ensures var split := SplitOnce(Page(token), WORD); split.Some? && split.value.1 == token
  {
    assert WORD[0] == 't' && 't' !in PAGE && '?' !in WORD;
    TailSplits(PAGE, '?', WORD, token);
  }

  /** What follows the first `token=` of a link. */
  lemma LinkSplits(base: string, locale: string, token: string)
    ensures var (root, page) := (TrimEndOf(base, '/'), locale + ['/'] + Page(token));
      var split := SplitOnce(Link(base, locale, token), WORD);
      && split.Some?
      && split.value.1 == if SplitOnce(root, WORD).Some? then SplitOnce(root, WORD).value.1 + ['/'] + page
                          else if SplitOnce(locale, WORD).Some? then SplitOnce(locale, WORD).value.1 + ['/'] + Page(token)
                          else token
  {
    PageSplits(token);
    SplitOnceAcross(locale, '/', Page(token), WORD);
    SplitOnceAcross(TrimEndOf(base, '/'), '/', locale + ['/'] + Page(token), WORD);
  }

  lemma {:induction false} TakeAll(s: string, stop: char -> bool)
    requires forall c :: c in s ==> !stop(c)
    ensures TakeUntil(s, stop) == s
  {
    if s != [] {
      TakeAll(s[1..], stop);
    }
  }

  /** A token is read from text before a slash only if it ends there. */
  lemma {:induction false} TakenBeforeSlash(own: string, page: string, token: string)
    requires '/' !in token
    ensures TakeUntil(own + ['/'] + page, IsAmp) == token <==> '&' in own && TakeUntil(own, IsAmp) == token
  {
    var s := own + ['/'] + page;
    if own == [] {
      assert s[0] == '/' && '/' in TakeUntil(s, IsAmp);
    } else {
      assert s[1..] == own[1..] + ['/'] + page;
      if own[0] != '&' {
        assert TakeUntil(s, IsAmp) == [own[0]] + TakeUntil(s[1..], IsAmp);
        assert TakeUntil(own, IsAmp) == [own[0]] + TakeUntil(own[1..], IsAmp);
        if token != [] {
          TakenBeforeSlash(own[1..], page, token[1..]);
          assert token == [token[0]] + token[1..];
        }
      }
    }
  }

  /** `s` has a first `token=` of its own, with just `token` up to an `&`. */
  predicate BringsToken(s: string, token: string) {
    var own := SplitOnce(s, WORD);
    own.Some? && '&' in own.value.1 && TakeUntil(own.value.1, IsAmp) == token
  }

  /** The link leads back to its token exactly if neither the site's address nor
      the locale has a `token=` of its own, or the first of them has this very
      token there, ended by an `&`. */
  lemma LinkCarriesToken(hmac: Hmac, base: string, locale: string, user: UserId, category: Category)
    requires IsHmac(hmac)
    ensures var (root, token) := (TrimEndOf(base, '/'), Token(hmac, user, category));
      ReadToken(Link(base, locale, token)) == Some(token)
      <==> if SplitOnce(root, WORD).Some? then BringsToken(root, token)
           else SplitOnce(locale, WORD).Some? ==> BringsToken(locale, token)
  {
    var (root, token) := (TrimEndOf(base, '/'), Token(hmac, user, category));
    TokenIsPlain(hmac, user, category);
    LinkSplits(base, locale, token);
    TakeAll(token, IsAmp);
    if SplitOnce(root, WORD).Some? {
      TakenBeforeSlash(SplitOnce(root, WORD).value.1, locale + ['/'] + Page(token), token);
    } else if SplitOnce(locale, WORD).Some? {
      TakenBeforeSlash(SplitOnce(locale, WORD).value.1, Page(token), token);
    }
  }

  lemma Glued(root: string, slash: string, locale: string, page: string, word: string, token: string)
    ensures root + slash + (locale + slash + (page + (word + token))) == root + slash + locale + (slash + page + word) + token
  {}

  lemma PageIs()
    ensures ['/'] + (PAGE + ['?']) + WORD == "/unsubscribe?token="
  {}

  /** The link of a message: the site's address, the locale, the page, the token. */
  lemma LinkIs(base: string, locale: string, token: string)
    ensures Link(base, locale, token) == TrimEndOf(base, '/') + "/" + locale + "/unsubscribe?token=" + token
  {
    Glued(TrimEndOf(base, '/'), ['/'], locale, PAGE + ['?'], WORD, token);
    PageIs();
    assert ['/'] == "/";
  }

  /** From a message's category to the mail provider's unsubscribe button and
      back: the header offers one click, with a token that is accepted for that
      user and category, and the page besides; without the API's address, the page
      alone. */
  lemma HeaderRoundTrip(hmac: Hmac, base: string, locale: string, api: string, user: UserId, category: Category)
    requires IsHmac(hmac) && category != Security
    requires SplitOnce(TrimEndOf(base, '/'), WORD).None? && SplitOnce(locale, WORD).None?
    ensures var webUrl := Link(base, locale, Token(hmac, user, category));
      var token := ReadToken(webUrl);
      && token.Some?
      && Parse(hmac, token.value) == Some((user, category))
      && webUrl == TrimEndOf(base, '/') + "/" + locale + "/unsubscribe?token=" + token.value
      && ListUnsubscribe(webUrl, Some(api)) ==
           ("<" + TrimEndOf(api, '/') + "/api/v1/public/email/unsubscribe/one-click?token=" + token.value
            + ">, <" + webUrl + ">", true)
      && ListUnsubscribe(webUrl, None) == ("<" + webUrl + ">", false)
  {
    LinkCarriesToken(hmac, base, locale, user, category);
    TokensRoundTrip(hmac, user, category);
    LinkIs(base, locale, Token(hmac, user, category));
    HeaderOffers(Link(base, locale, Token(hmac, user, category)), api, Token(hmac, user, category));
  }

  lemma HeaderOffers(webUrl: string, api: string, token: string)
    requires ReadToken(webUrl) == Some(token)
    ensures ListUnsubscribe(webUrl, Some(api)) ==
      ("<" + TrimEndOf(api, '/') + "/api/v1/public/email/unsubscribe/one-click?token=" + token + ">, <" + webUrl + ">", true)
    ensures ListUnsubscribe(webUrl, None) == ("<" + webUrl + ">", false)
  {}
}
