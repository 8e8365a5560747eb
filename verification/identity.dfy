/**
  Deterministic names for the resources behind a subscription. The destination
  URL is turned into a token with `btoa`, every padding `=` replaced by `_`, and
  the token is joined to a prefix and the channel name with `_`.
 */
module Identity {
  import opened Errors
  import opened Base64

  /** Replaces every `=` by `_` and keeps every other character. */
  function Underscore(s: string): (r: string)
    ensures |r| == |s|
    ensures '=' !in r
    ensures forall i :: 0 <= i < |s| && s[i] != '=' ==> r[i] == s[i]
    ensures forall i :: 0 <= i < |s| && s[i] == '=' ==> r[i] == '_'
    decreases |s|
  {
    if |s| == 0 then []
    else [if s[0] == '=' then '_' else s[0]] + Underscore(s[1..])
  }

  /** Replaces every `_` by `=`: the inverse of `Underscore` on Base 64 text. */
  function Repad(s: string): string
    decreases |s|
  {
    if |s| == 0 then []
    else [if s[0] == '_' then '=' else s[0]] + Repad(s[1..])
  }

  /** `Repad` undoes `Underscore` on any text without `_`, such as Base 64. */
  lemma {:induction false} RepadUnderscore(s: string)
    requires '_' !in s
    ensures Repad(Underscore(s)) == s
    decreases |s|
  {
    if |s| > 0 {
      RepadUnderscore(s[1..]);
      assert Underscore(s)[1..] == Underscore(s[1..]);
      assert s == [s[0]] + s[1..];
    }
  }

  /**
    The token a destination URL contributes to the resource names. It fails
    where `btoa` throws. It never contains `=`, is made of alphabet
    characters except for the last two positions (which may be `_`), has a
    length that is a multiple of four, and is non-empty for a non-empty URL.
   */
  function UrlToken(url: string): (r: Result<string>)
    ensures r.Ok? <==> IsLatin1(url)
    ensures r.Err? ==> r.error == InvalidCharacter
    ensures r.Ok? ==> '=' !in r.value && |r.value| % 4 == 0
    ensures r.Ok? ==> forall i :: 0 <= i < |r.value| - 2 ==> IsDigit(r.value[i])
    ensures r.Ok? ==> forall i :: 0 <= i < |r.value| ==> IsDigit(r.value[i]) || r.value[i] == '_'
    ensures r.Ok? && |url| > 0 ==> |r.value| >= 4
  {
    match Btoa(url)
    case Err(e) => Err(e)
    case Ok(b64) =>
      var bytes := Latin1(url).value;
      assert b64 == Encode(bytes);
      EncodeLength(bytes);
      Ok(Underscore(b64))
  }

  /** Two URLs that `btoa` accepts and that give the same token are the same URL. */
  lemma UrlTokenInjective(u1: string, u2: string)
    requires UrlToken(u1).Ok? && UrlToken(u2).Ok?
    requires UrlToken(u1).value == UrlToken(u2).value
    ensures u1 == u2
  {
    var e1 := Btoa(u1).value;
    var e2 := Btoa(u2).value;
    assert '_' !in e1 by {
      forall i | 0 <= i < |e1| ensures e1[i] != '_' {
        assert IsDigit(e1[i]) || e1[i] == '=';
      }
    }
    assert '_' !in e2 by {
      forall i | 0 <= i < |e2| ensures e2[i] != '_' {
        assert IsDigit(e2[i]) || e2[i] == '=';
      }
    }
    RepadUnderscore(e1);
    RepadUnderscore(e2);
    BtoaInjective(u1, u2);
  }

  /** `{prefix}_{channel}_{token}`, the shape of every derived name. */
  function Join(prefix: string, channel: string, token: string): string {
    prefix + "_" + channel + "_" + token
  }

  /** A joined name splits back into its prefix, its channel and its token. */
  lemma JoinParts(prefix: string, channel: string, token: string)
    ensures var n := Join(prefix, channel, token);
      var p, k := |prefix| + 1, |channel| + 1;
      && |n| == p + k + |token|
      && n[..p] == prefix + "_"
      && n[p..] == channel + "_" + token
      && n[p..p + k] == channel + "_"
      && n[p + k..] == token
  {
  }

  /** The name derived for a (channel, URL) pair under a prefix. */
  function DerivedName(prefix: string, channel: string, url: string): Result<string> {
    var token :- UrlToken(url);
    Ok(Join(prefix, channel, token))
  }

  /** The connection name: `conn_{channel}_{token}`. */
  function ConnectionName(channel: string, url: string): Result<string> {
    DerivedName("conn", channel, url)
  }

  /** For one channel, distinct URLs always derive distinct names. */
  lemma SameChannelDistinctUrls(prefix: string, channel: string, u1: string, u2: string)
    requires DerivedName(prefix, channel, u1).Ok? && DerivedName(prefix, channel, u2).Ok?
    requires DerivedName(prefix, channel, u1).value == DerivedName(prefix, channel, u2).value
    ensures u1 == u2
  {
    var head := prefix + "_" + channel + "_";
    var t1 := UrlToken(u1).value;
    var t2 := UrlToken(u2).value;
    assert (head + t1)[|head|..] == t1;
    assert (head + t2)[|head|..] == t2;
    UrlTokenInjective(u1, u2);
  }

  /** A non-empty token: at least four characters, `_` only in the last two. */
  ghost predicate TokenShape(t: string) {
    |t| >= 4 && forall i :: 0 <= i < |t| - 2 ==> t[i] != '_'
  }

  /** Every token of a non-empty URL has the shape of one. */
  lemma UrlTokenShape(url: string)
    requires |url| > 0 && UrlToken(url).Ok?
    ensures TokenShape(UrlToken(url).value)
  {
    var t := UrlToken(url).value;
    forall i | 0 <= i < |t| - 2 ensures t[i] != '_' {
      assert IsDigit(t[i]);
    }
  }

  /**
    If `a_ta` equals `b_tb` with `a` the shorter, the separator after `b`
    falls inside `ta`.
   */
  lemma SeparatorInside(a: string, ta: string, b: string, tb: string)
    requires |a| < |b|
    requires a + "_" + ta == b + "_" + tb
    ensures |ta| == |b| - |a| + |tb|
    ensures ta[|b| - |a| - 1] == '_'
  {
    var s := a + "_" + ta;
    assert s[|b|] == (b + "_" + tb)[|b|];
  }

  /**
    `a_ta` and `b_tb` with well-shaped tokens are equal only when `a == b`
    and `ta == tb`: if `a` were shorter, the separator after `b` would land
    in `ta` before its last two positions.
   */
  lemma SplitAtSeparator(a: string, ta: string, b: string, tb: string)
    requires TokenShape(ta) && TokenShape(tb)
    requires a + "_" + ta == b + "_" + tb
    ensures a == b && ta == tb
  {
    var s := a + "_" + ta;
    if |a| < |b| {
      SeparatorInside(a, ta, b, tb);
      assert false;
    } else if |b| < |a| {
      SeparatorInside(b, tb, a, ta);
      assert false;
    } else {
      assert a == s[..|a|];
      assert ta == s[|a| + 1..];
    }
  }

  /**
    Over non-empty URLs, derived names are injective in the (channel, URL)
    pair, even for channel names that contain `_`.
   */
  lemma DerivedNameInjective(prefix: string, c1: string, u1: string, c2: string, u2: string)
    requires |u1| > 0 && |u2| > 0
    requires DerivedName(prefix, c1, u1).Ok? && DerivedName(prefix, c2, u2).Ok?
    requires DerivedName(prefix, c1, u1).value == DerivedName(prefix, c2, u2).value
    ensures c1 == c2 && u1 == u2
  {
    var t1 := UrlToken(u1).value;
    var t2 := UrlToken(u2).value;
    UrlTokenShape(u1);
    UrlTokenShape(u2);
    JoinInjective(prefix, c1, t1, c2, t2);
    UrlTokenInjective(u1, u2);
  }

  /** Joining is injective in (channel, token) over well-shaped tokens. */
  lemma JoinInjective(prefix: string, c1: string, t1: string, c2: string, t2: string)
    requires TokenShape(t1) && TokenShape(t2)
    requires Join(prefix, c1, t1) == Join(prefix, c2, t2)
    ensures c1 == c2 && t1 == t2
  {
    var p := prefix + "_";
    var s1 := c1 + "_" + t1;
    var s2 := c2 + "_" + t2;
    assert Join(prefix, c1, t1) == p + s1;
    assert Join(prefix, c2, t2) == p + s2;
    assert s1 == (p + s1)[|p|..] == (p + s2)[|p|..] == s2;
    SplitAtSeparator(c1, t1, c2, t2);
  }

  /**
    With an empty URL the pair is no longer recoverable: channel `a` with URL
    `]` and channel `a_XQ_` with the empty URL derive the same names.
   */
  lemma EmptyUrlCollision(prefix: string)
    ensures DerivedName(prefix, "a", "]").Ok? && DerivedName(prefix, "a_XQ_", "").Ok?
    ensures DerivedName(prefix, "a", "]").value == DerivedName(prefix, "a_XQ_", "").value
  {
    BracketToken();
    EmptyToken();
    assert prefix + "_" + "a" + "_" + "XQ__" == prefix + "_" + "a_XQ_" + "_" + "";
  }

  /** The token of the one-character URL `]` (byte 0x5D) is `XQ__`. */
  lemma BracketToken()
    ensures UrlToken("]") == Ok("XQ__")
  {
    var r := Latin1("]");
    assert r.Ok? && |r.value| == 1 && r.value[0] == 93;
    assert r.value == [93];
    EncodeBracket();
    assert Underscore("XQ==") == "XQ__";
  }

  /** The token of the empty URL is empty. */
  lemma EmptyToken()
    ensures UrlToken("") == Ok("")
  {
    assert Latin1("") == Ok([]);
  }
}
