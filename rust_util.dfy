/**
 * Helpers of the Rust demo (rust/src/util.rs): the filter that keeps only
 * the `message` field of a server error, the affected-row printer and the
 * parameter batches.
 */
module RustUtil {
  import opened Wrappers
  import opened Arrow
  import opened Text
  import opened Bindings

  /** Where the server's error text quotes its message. */
  const Marker: string := "message: \""
  /** The source location the server appends to a message. */
  const Suffix: string := " at src/dbserver/src"
  /** Stands in for an escaped quote while the pattern is matched. */
  const Placeholder: string := "[ESCAPED_QUOTE]"
  /** A backslash followed by a double quote. */
  const EscapedQuote: string := "\\\""

  /** Line breaks become spaces and escaped quotes the placeholder. */
  function Normalize(err: string): (t: string)
    ensures '\n' !in t && '\r' !in t
    ensures !Occurs(t, EscapedQuote)
  {
    var flat := ReplaceChars(err, {'\n', '\r'}, " ");
    ReplaceCharsRemoves(err, {'\n', '\r'}, " ", '\n');
    ReplaceCharsRemoves(err, {'\n', '\r'}, " ", '\r');
    ReplaceAllAvoids(flat, EscapedQuote, Placeholder, '\n');
    ReplaceAllAvoids(flat, EscapedQuote, Placeholder, '\r');
    ReplacePairRemoves(flat, '\\', '"', Placeholder);
    ReplaceAll(flat, EscapedQuote, Placeholder)
  }

  /** Some double quote sits at index `i` or later. */
  predicate QuoteFrom(t: string, i: nat) {
    exists j :: i <= j < |t| && t[j] == '"'
  }

  /**
   * The lazy capture `(.*?)` may end at `q`: either a quote closes it there,
   * or the optional ` at src/dbserver/src.*?` group starts there and a quote
   * follows it somewhere.
   */
  predicate StopsAt(t: string, q: nat) {
    (q < |t| && t[q] == '"') || (At(t, q, Suffix) && QuoteFrom(t, q + |Suffix|))
  }

  /** The leftmost occurrence of the marker at or after `from`. */
  function FirstMarker(t: string, from: nat): (r: Option<nat>)
    requires from <= |t|
    ensures r.Some? ==> from <= r.value && At(t, r.value, Marker)
    ensures r.Some? ==> forall i :: from <= i < r.value ==> !At(t, i, Marker)
    ensures r.None? ==> forall i :: from <= i <= |t| ==> !At(t, i, Marker)
    decreases |t| - from
  {
    if At(t, from, Marker) then Some(from)
    else if from == |t| then None
    else FirstMarker(t, from + 1)
  }

  /** The shortest capture end at or after `from`. */
  function FirstStop(t: string, from: nat): (r: Option<nat>)
    requires from <= |t|
    ensures r.Some? ==> from <= r.value < |t| && StopsAt(t, r.value)
    ensures r.Some? ==> forall i :: from <= i < r.value ==> !StopsAt(t, i)
    ensures r.None? ==> forall i :: from <= i <= |t| ==> !StopsAt(t, i)
    decreases |t| - from
  {
    if StopsAt(t, from) then Some(from)
    else if from == |t| then None
    else FirstStop(t, from + 1)
  }

  /**
   * Capture group 1 of `message: "(.*?)(?: at src/dbserver/src.*?)?"` under
   * leftmost-first matching: the match starts at the first marker, and the
   * lazy group ends at the first place the rest of the pattern can match.
   */
  function Capture(t: string): Option<string> {
    match FirstMarker(t, 0)
    case None => None
    case Some(p) =>
      match FirstStop(t, p + |Marker|)
      case None => None
      case Some(q) => Some(t[p + |Marker|..q])
  }

  /** The pattern matches exactly when some marker is followed, anywhere later, by a quote. */
  lemma CaptureExists(t: string)
    ensures Capture(t).Some? <==>
            exists p: nat :: p <= |t| && At(t, p, Marker) && QuoteFrom(t, p + |Marker|)
  {
    var first := FirstMarker(t, 0);
    if exists p: nat :: p <= |t| && At(t, p, Marker) && QuoteFrom(t, p + |Marker|) {
      var p: nat :| p <= |t| && At(t, p, Marker) && QuoteFrom(t, p + |Marker|);
      var j :| p + |Marker| <= j < |t| && t[j] == '"';
      var p0 := first.value;
      assert p0 <= p;
      assert StopsAt(t, j);
    }
    if Capture(t).Some? {
      var p0 := first.value;
      var q := FirstStop(t, p0 + |Marker|).value;
      if t[q] != '"' {
        var j :| q + |Suffix| <= j < |t| && t[j] == '"';
      }
    }
  }

  /**
   * `filter_message`: normalise, and if the pattern matches keep only the
   * capture, with escaped quotes turned back into quotes and every other
   * backslash dropped.
   */
  function FilterMessage(err: string): (r: string)
    ensures '\n' !in r && '\r' !in r
    ensures Capture(Normalize(err)).Some? ==> '\\' !in r
  {
    var t := Normalize(err);
    match Capture(t)
    case None => t
    case Some(c) =>
      SliceAvoids(t, c, '\n');
      SliceAvoids(t, c, '\r');
      var unescaped := ReplaceAll(c, Placeholder, EscapedQuote);
      ReplaceAllAvoids(c, Placeholder, EscapedQuote, '\n');
      ReplaceAllAvoids(c, Placeholder, EscapedQuote, '\r');
      ReplaceAllAvoids(unescaped, "\\", "", '\n');
      ReplaceAllAvoids(unescaped, "\\", "", '\r');
      ReplaceAllRemoves(unescaped, '\\', "");
      ReplaceAll(unescaped, "\\", "")
  }

  lemma SliceAvoids(t: string, c: string, ch: char)
    requires ch !in t
    requires Capture(t) == Some(c)
    ensures ch !in c
  {
    var p := FirstMarker(t, 0).value;
    var q := FirstStop(t, p + |Marker|).value;
    assert c == t[p + |Marker|..q];
  }

  /** Text free of line breaks and backslashes survives normalisation unchanged. */
  lemma NormalizeClean(err: string)
    requires forall i :: 0 <= i < |err| ==> err[i] != '\n' && err[i] != '\r' && err[i] != '\\'
    ensures Normalize(err) == err
  {
    ReplaceCharsAbsent(err, {'\n', '\r'}, " ");
    forall i: nat | i <= |err|
      ensures !At(err, i, EscapedQuote)
    {
      if i + |EscapedQuote| <= |err| {
        assert err[i..i + |EscapedQuote|][0] == err[i];
      }
    }
    ReplaceAllAbsent(err, EscapedQuote, Placeholder);
  }

  /** An error without line breaks, backslashes or a quoted message is passed through as it is. */
  lemma FilterPlain(err: string)
    requires forall i :: 0 <= i < |err| ==> err[i] != '\n' && err[i] != '\r' && err[i] != '\\'
    requires !Occurs(err, Marker)
    ensures FilterMessage(err) == err
  {
    NormalizeClean(err);
  }

  /**
   * When the first marker is at `p` and the shortest capture ends at `q`,
   * the filter returns the text between them, provided the text has no line
   * break or backslash and the capture holds no placeholder.
   */
  lemma FilterBetween(err: string, p: nat, q: nat)
    requires forall i :: 0 <= i < |err| ==> err[i] != '\n' && err[i] != '\r' && err[i] != '\\'
    requires At(err, p, Marker) && forall i :: 0 <= i < p ==> !At(err, i, Marker)
    requires p + |Marker| <= q && StopsAt(err, q)
    requires forall i :: p + |Marker| <= i < q ==> !StopsAt(err, i)
    requires !Occurs(err[p + |Marker|..q], Placeholder)
    ensures FilterMessage(err) == err[p + |Marker|..q]
  {
    NormalizeClean(err);
    CaptureAt(err, p, q);
    var c := err[p + |Marker|..q];
    ReplaceAllAbsent(c, Placeholder, EscapedQuote);
    forall i: nat | i <= |c|
      ensures !At(c, i, "\\")
    {
      if i < |c| {
        assert c[i..i + 1][0] == c[i] == err[p + |Marker| + i];
      }
    }
    ReplaceAllAbsent(c, "\\", "");
  }

  /** Characters of `pre + Marker + body + rest` at the body's positions come from `body`. */
  lemma BodyIndex(err: string, pre: string, body: string, rest: string, i: nat)
    requires err == pre + Marker + body + rest
    requires |pre| + |Marker| <= i < |pre| + |Marker| + |body|
    ensures err[i] == body[i - |pre| - |Marker|]
  {
  }

  /**
   * A server error `... message: "<body> at src/dbserver/src/...", ...`
   * filters to `<body>`: the source location is dropped along with
   * everything around the message.
   */
  lemma FilterServerMessage(pre: string, body: string, tail: string)
    requires var err := pre + Marker + body + Suffix + tail;
             forall i :: 0 <= i < |err| ==> err[i] != '\n' && err[i] != '\r' && err[i] != '\\'
    requires forall i :: 0 <= i < |pre| ==> !At(pre + Marker + body + Suffix + tail, i, Marker)
    requires '"' !in body && '"' in tail
    requires forall i :: 0 <= i < |body| ==> !At(body + Suffix, i, Suffix)
    requires !Occurs(body, Placeholder)
    ensures FilterMessage(pre + Marker + body + Suffix + tail) == body
  {
    var err := pre + Marker + body + Suffix + tail;
    var p := |pre|;
    var q := p + |Marker| + |body|;
    assert err[p..p + |Marker|] == Marker;
    ServerStop(err, pre, body, tail);
    forall i | p + |Marker| <= i < q
      ensures !StopsAt(err, i)
    {
      NoSuffixInBody(err, pre, body, tail, i);
    }
    assert err[p + |Marker|..q] == body;
    FilterBetween(err, p, q);
  }

  lemma ServerStop(err: string, pre: string, body: string, tail: string)
    requires err == pre + Marker + body + Suffix + tail && '"' in tail
    ensures StopsAt(err, |pre| + |Marker| + |body|)
  {
    var q := |pre| + |Marker| + |body|;
    assert err[q..q + |Suffix|] == Suffix;
    var k :| 0 <= k < |tail| && tail[k] == '"';
    assert err[q + |Suffix| + k] == '"';
  }

  lemma NoSuffixInBody(err: string, pre: string, body: string, tail: string, i: nat)
    requires err == pre + Marker + body + Suffix + tail && '"' !in body
    requires forall i :: 0 <= i < |body| ==> !At(body + Suffix, i, Suffix)
    requires |pre| + |Marker| <= i < |pre| + |Marker| + |body|
    ensures !StopsAt(err, i)
  {
    BodyIndex(err, pre, body, Suffix + tail, i);
    var j := i - |pre| - |Marker|;
    assert !At(body + Suffix, j, Suffix);
    assert err[i..i + |Suffix|] == (body + Suffix)[j..j + |Suffix|];
  }

  /** A message closed by a quote, `... message: "<body>" ...`, filters to `<body>`. */
  lemma FilterQuotedMessage(pre: string, body: string, tail: string)
    requires var err := pre + Marker + body + "\"" + tail;
             forall i :: 0 <= i < |err| ==> err[i] != '\n' && err[i] != '\r' && err[i] != '\\'
    requires forall i :: 0 <= i < |pre| ==> !At(pre + Marker + body + "\"" + tail, i, Marker)
    requires '"' !in body && !Occurs(body, Suffix)
    requires !Occurs(body, Placeholder)
    ensures FilterMessage(pre + Marker + body + "\"" + tail) == body
  {
    var err := pre + Marker + body + "\"" + tail;
    var p := |pre|;
    var q := p + |Marker| + |body|;
    assert err == (pre + Marker) + body + ("\"" + tail);
    assert err[p..p + |Marker|] == Marker;
    assert err[q] == '"';
    forall i | p + |Marker| <= i < q
      ensures !StopsAt(err, i)
    {
      BodyIndex(err, pre, body, "\"" + tail, i);
      var j := i - p - |Marker|;
      if i + |Suffix| <= |err| {
        if j + |Suffix| <= |body| {
          assert !At(body, j, Suffix);
          SliceMiddle(pre + Marker, body, "\"" + tail, i, |Suffix|);
        } else {
          assert err[i..i + |Suffix|][q - i] == err[q];
        }
      }
    }
    SliceMiddle(pre + Marker, body, "\"" + tail, p + |Marker|, |body|);
    FilterBetween(err, p, q);
  }

  /** An error in which the pattern finds no message is returned normalised, placeholders included. */
  lemma FilterUnmatched(err: string)
    requires Capture(Normalize(err)).None?
    ensures FilterMessage(err) == Normalize(err)
    ensures !Occurs(FilterMessage(err), EscapedQuote)
  {
  }

  /** How the server writes text inside a quoted field: each quote as `\"`. */
  function Escaped(body: string): string {
    ReplaceChars(body, {'"'}, EscapedQuote)
  }

  /** The same text after normalisation: each quote as the placeholder. */
  function Protected(body: string): string {
    ReplaceChars(body, {'"'}, Placeholder)
  }

  /** Normalisation turns each escaped quote of an escaped text into the placeholder. */
  lemma {:induction false} EscapedNormalizes(body: string, z: string)
    requires '\\' !in body
    ensures ReplaceAll(Escaped(body) + z, EscapedQuote, Placeholder)
            == Protected(body) + ReplaceAll(z, EscapedQuote, Placeholder)
  {
    if body == [] {
      assert Escaped(body) + z == z;
    } else {
      EscapedNormalizes(body[1..], z);
      EscapedCons(body, z);
      if body[0] == '"' {
        NormalizeQuoteStep(body[1..], z);
      } else {
        NormalizeCharStep(body[0], body[1..], z);
      }
    }
  }

  /** One step of `EscapedNormalizes`: an escaped quote becomes the placeholder. */
  lemma NormalizeQuoteStep(rest: string, z: string)
    requires ReplaceAll(Escaped(rest) + z, EscapedQuote, Placeholder)
             == Protected(rest) + ReplaceAll(z, EscapedQuote, Placeholder)
    ensures ReplaceAll(EscapedQuote + (Escaped(rest) + z), EscapedQuote, Placeholder)
            == (Placeholder + Protected(rest)) + ReplaceAll(z, EscapedQuote, Placeholder)
  {
    ReplaceAllLeading(Escaped(rest) + z, EscapedQuote, Placeholder);
  }

  /** One step of `EscapedNormalizes`: any other character is kept. */
  lemma NormalizeCharStep(c: char, rest: string, z: string)
    requires c != '\\'
    requires ReplaceAll(Escaped(rest) + z, EscapedQuote, Placeholder)
             == Protected(rest) + ReplaceAll(z, EscapedQuote, Placeholder)
    ensures ReplaceAll([c] + (Escaped(rest) + z), EscapedQuote, Placeholder)
            == ([c] + Protected(rest)) + ReplaceAll(z, EscapedQuote, Placeholder)
  {
    ReplaceAllSkip(c, Escaped(rest) + z, EscapedQuote, Placeholder);
  }

  /** Escaping and protecting a text go character by character. */
  lemma EscapedCons(body: string, z: string)
    requires body != []
    ensures body[0] == '"' ==> Escaped(body) + z == EscapedQuote + (Escaped(body[1..]) + z)
    ensures body[0] != '"' ==> Escaped(body) + z == [body[0]] + (Escaped(body[1..]) + z)
    ensures Protected(body) == (if body[0] == '"' then Placeholder else [body[0]]) + Protected(body[1..])
  {
  }

  /**
   * Up to the next placeholder, protected text that does not start with a
   * placeholder is the original text.
   */
  lemma {:induction false} ProtectedPrefix(s: string, n: nat)
    requires s != [] && s[0] != '"' && n <= |Protected(s)|
    requires forall k :: 1 <= k < n ==> Protected(s)[k] != '['
    ensures n <= |s| && Protected(s)[..n] == s[..n]
  {
    var rest := s[1..];
    assert Protected(s) == [s[0]] + Protected(rest);
    if n >= 2 {
      assert Protected(rest)[0] == Protected(s)[1];
      assert Protected(rest)[0] == (if rest[0] == '"' then '[' else rest[0]);
      forall k | 1 <= k < n - 1
        ensures Protected(rest)[k] != '['
      {
        assert Protected(rest)[k] == Protected(s)[k + 1];
      }
      ProtectedPrefix(rest, n - 1);
      assert Protected(s)[..n] == [s[0]] + Protected(rest)[..n - 1];
      assert s[..n] == [s[0]] + rest[..n - 1];
    }
  }

  /** Text in which `w` never occurs loses no occurrence of `w` to a suffix of itself. */
  lemma OccursTail(s: string, w: string)
    requires s != [] && !Occurs(s, w)
    ensures !Occurs(s[1..], w)
  {
    forall j: nat | j <= |s[1..]|
      ensures !At(s[1..], j, w)
    {
      assert !At(s, j + 1, w);
      if j + |w| <= |s[1..]| {
        assert s[1..][j..j + |w|] == s[j + 1..j + 1 + |w|];
      }
    }
  }

  /**
   * Protecting quotes creates no occurrence of a word that shares no
   * character with the placeholder.
   */
  lemma {:induction false} ProtectedAvoids(s: string, w: string)
    requires forall k :: 0 <= k < |w| ==> w[k] !in Placeholder
    requires !Occurs(s, w)
    ensures !Occurs(Protected(s), w)
  {
    if s != [] {
      OccursTail(s, w);
      ProtectedAvoids(s[1..], w);
      assert !At(s, 0, w) && At(s, 0, []);
      forall i: nat | i <= |Protected(s)|
        ensures !At(Protected(s), i, w)
      {
        ProtectedAvoidsAt(s, w, i);
      }
    }
  }

  /** One step of `ProtectedAvoids`: no occurrence starts at `i`. */
  lemma ProtectedAvoidsAt(s: string, w: string, i: nat)
    requires w != [] && forall k :: 0 <= k < |w| ==> w[k] !in Placeholder
    requires s != [] && !Occurs(s, w) && !Occurs(Protected(s[1..]), w)
    ensures !At(Protected(s), i, w)
  {
    var head := if s[0] == '"' then Placeholder else [s[0]];
    var ps := Protected(s);
    assert ps == head + Protected(s[1..]);
    if i + |w| <= |ps| {
      if i >= |head| {
        assert !At(Protected(s[1..]), i - |head|, w);
        SliceRight(head, Protected(s[1..]), i, |w|);
      } else if s[0] == '"' {
        assert ps[i] == Placeholder[i];
        assert ps[i..i + |w|][0] == ps[i] && w[0] !in Placeholder;
      } else {
        assert !At(s, 0, w);
        if At(ps, 0, w) {
          forall k | 1 <= k < |w|
            ensures ps[k] != '['
          {
            assert ps[k] == ps[..|w|][k] == w[k];
          }
          ProtectedPrefix(s, |w|);
          assert false;
        }
      }
    }
  }

  /** Protecting quotes creates no source location, which shares no character with the placeholder. */
  lemma ProtectedAvoidsSuffix(body: string)
    requires !Occurs(body, Suffix)
    ensures !Occurs(Protected(body), Suffix)
  {
    ProtectedAvoids(body, Suffix);
  }

  /** Turning placeholders back into escaped quotes undoes the protection. */
  lemma {:induction false} RestoreProtected(body: string)
    requires !Occurs(body, Placeholder)
    ensures ReplaceAll(Protected(body), Placeholder, EscapedQuote) == Escaped(body)
  {
    if body != [] {
      var rest := body[1..];
      OccursTail(body, Placeholder);
      RestoreProtected(rest);
      var ps := Protected(body);
      if body[0] == '"' {
        assert ps == Placeholder + Protected(rest);
        assert At(ps, 0, Placeholder);
        assert ps[|Placeholder|..] == Protected(rest);
        assert Escaped(body) == EscapedQuote + Escaped(rest);
      } else {
        assert ps == [body[0]] + Protected(rest);
        if At(ps, 0, Placeholder) {
          forall k | 1 <= k < |Placeholder|
            ensures ps[k] != '['
          {
            assert ps[k] == ps[..|Placeholder|][k] == Placeholder[k];
          }
          ProtectedPrefix(body, |Placeholder|);
          assert At(body, 0, Placeholder);
          assert false;
        }
        assert ps[1..] == Protected(rest);
        assert Escaped(body) == [body[0]] + Escaped(rest);
      }
    }
  }

  /** Dropping the backslashes of an escaped text without backslashes of its own recovers it. */
  lemma {:induction false} StripEscaped(body: string)
    requires '\\' !in body
    ensures ReplaceAll(Escaped(body), "\\", "") == body
  {
    if body != [] {
      var rest := body[1..];
      StripEscaped(rest);
      var e := Escaped(body);
      if body[0] == '"' {
        assert e == EscapedQuote + Escaped(rest);
        assert At(e, 0, "\\");
        assert e[1..] == ['"'] + Escaped(rest);
        assert e[1..][..1][0] == '"';
        assert e[1..][1..] == Escaped(rest);
      } else {
        assert e == [body[0]] + Escaped(rest);
        assert e[..1][0] == body[0];
        assert e[1..] == Escaped(rest);
      }
      assert body == [body[0]] + rest;
    }
  }

  /** Escaped text without line breaks or backslashes of its own normalises to its protected form. */
  lemma NormalizeEscaped(text: string)
    requires '\\' !in text && '\n' !in text && '\r' !in text
    ensures Normalize(Escaped(text)) == Protected(text)
  {
    ReplaceCharsAvoids(text, {'"'}, EscapedQuote, '\n');
    ReplaceCharsAvoids(text, {'"'}, EscapedQuote, '\r');
    ReplaceCharsAbsent(Escaped(text), {'\n', '\r'}, " ");
    EscapedNormalizes(text, []);
    assert Escaped(text) + [] == Escaped(text);
  }

  /**
   * Escaped text on its own holds no quote after normalisation, so no
   * message matches and each escaped quote comes back as the placeholder.
   */
  lemma FilterEscapedUnquoted(text: string)
    requires '\\' !in text && '\n' !in text && '\r' !in text
    ensures FilterMessage(Escaped(text)) == Protected(text)
  {
    NormalizeEscaped(text);
    var t := Protected(text);
    ReplaceCharsRemoves(text, {'"'}, Placeholder, '"');
    forall i: nat | i <= |t|
      ensures !At(t, i, Marker)
    {
      if i + |Marker| <= |t| {
        assert t[i..i + |Marker|][9] == t[i + 9] && t[i + 9] in t;
        assert Marker[9] == '"';
      }
    }
    assert FirstMarker(t, 0).None?;
  }

  /** The capture runs from the first marker to the first place it may stop after it. */
  lemma CaptureAt(t: string, p: nat, q: nat)
    requires At(t, p, Marker) && forall i :: 0 <= i < p ==> !At(t, i, Marker)
    requires p + |Marker| <= q && StopsAt(t, q)
    requires forall i :: p + |Marker| <= i < q ==> !StopsAt(t, i)
    ensures Capture(t) == Some(t[p + |Marker|..q])
  {
    assert FirstMarker(t, 0) == Some(p);
    assert q < |t|;
    assert FirstStop(t, p + |Marker|) == Some(q);
  }

  /** The normalised form of a server error whose message is written with escaped quotes. */
  lemma NormalizeEscapedMessage(pre: string, body: string, close: string)
    requires '\\' !in pre + body + close && '\n' !in pre + body + close && '\r' !in pre + body + close
    ensures Normalize(pre + Marker + Escaped(body) + close)
            == pre + Marker + Protected(body) + close
  {
    var front := pre + Marker;
    var err := front + (Escaped(body) + close);
    assert pre + Marker + Escaped(body) + close == err;
    NoBreaks(front, body, close);
    ProtectMessage(front, body, close);
    assert front + (Protected(body) + close) == pre + Marker + Protected(body) + close;
  }

  lemma NoBreaks(front: string, body: string, close: string)
    requires '\n' !in front + body + close && '\r' !in front + body + close
    ensures ReplaceChars(front + (Escaped(body) + close), {'\n', '\r'}, " ")
            == front + (Escaped(body) + close)
  {
    ReplaceCharsAvoids(body, {'"'}, EscapedQuote, '\n');
    ReplaceCharsAvoids(body, {'"'}, EscapedQuote, '\r');
    var err := front + (Escaped(body) + close);
    assert '\n' !in err && '\r' !in err;
    ReplaceCharsAbsent(err, {'\n', '\r'}, " ");
  }

  lemma ProtectMessage(front: string, body: string, close: string)
    requires '\\' !in front && '\\' !in body && '\\' !in close
    ensures ReplaceAll(front + (Escaped(body) + close), EscapedQuote, Placeholder)
            == front + (Protected(body) + close)
  {
    ReplaceAllPrefix(front, Escaped(body) + close, EscapedQuote, Placeholder);
    EscapedNormalizes(body, close);
    ReplaceAllPrefix(close, [], EscapedQuote, Placeholder);
    assert close + [] == close;
    assert ReplaceAll([], EscapedQuote, Placeholder) == [];
  }

  /** No stop falls inside a protected message that holds no source location. */
  lemma ProtectedNoStop(t: string, pre: string, pb: string, tail: string, i: nat)
    requires t == pre + Marker + pb + "\"" + tail
    requires '"' !in pb && !Occurs(pb, Suffix)
    requires |pre| + |Marker| <= i < |pre| + |Marker| + |pb|
    ensures !StopsAt(t, i)
  {
    var q := |pre| + |Marker| + |pb|;
    var j := i - |pre| - |Marker|;
    BodyIndex(t, pre, pb, "\"" + tail, i);
    if i + |Suffix| <= |t| {
      if j + |Suffix| <= |pb| {
        assert !At(pb, j, Suffix);
        assert t[i..i + |Suffix|] == pb[j..j + |Suffix|];
      } else {
        assert t[q] == '"';
        assert t[i..i + |Suffix|][q - i] == t[q];
      }
    }
  }

  /** The pattern captures exactly the protected message. */
  lemma ProtectedCapture(pre: string, body: string, tail: string)
    requires forall i :: 0 <= i < |pre| ==> !At(pre + Marker, i, Marker)
    requires !Occurs(body, Suffix)
    ensures Capture(pre + Marker + Protected(body) + "\"" + tail) == Some(Protected(body))
  {
    var pb := Protected(body);
    var t := pre + Marker + pb + "\"" + tail;
    var p := |pre|;
    var q := p + |Marker| + |pb|;
    assert t[p..p + |Marker|] == Marker;
    assert t == (pre + Marker) + (pb + "\"" + tail);
    forall i | 0 <= i < p
      ensures !At(t, i, Marker)
    {
      assert !At(pre + Marker, i, Marker);
      assert t[i..i + |Marker|] == (pre + Marker)[i..i + |Marker|];
    }
    assert t[q] == '"';
    ReplaceCharsRemoves(body, {'"'}, Placeholder, '"');
    ProtectedAvoidsSuffix(body);
    forall i | p + |Marker| <= i < q
      ensures !StopsAt(t, i)
    {
      ProtectedNoStop(t, pre, pb, tail, i);
    }
    assert t[p + |Marker|..q] == pb;
    CaptureAt(t, p, q);
  }

  /**
   * A server error `... message: "<body>" ...` whose message is written
   * with escaped quotes filters to the message with plain quotes.
   */
  lemma FilterEscapedMessage(pre: string, body: string, tail: string)
    requires '\\' !in pre + body + tail && '\n' !in pre + body + tail && '\r' !in pre + body + tail
    requires forall i :: 0 <= i < |pre| ==> !At(pre + Marker, i, Marker)
    requires !Occurs(body, Placeholder) && !Occurs(body, Suffix)
    ensures FilterMessage(pre + Marker + Escaped(body) + "\"" + tail) == body
  {
    assert pre + Marker + Escaped(body) + "\"" + tail == pre + Marker + Escaped(body) + ("\"" + tail);
    NormalizeEscapedMessage(pre, body, "\"" + tail);
    assert pre + Marker + Protected(body) + ("\"" + tail) == pre + Marker + Protected(body) + "\"" + tail;
    ProtectedCapture(pre, body, tail);
    RestoreProtected(body);
    StripEscaped(body);
  }

  /** No proper suffix of the source location is also a prefix of it. */
  lemma SuffixNoBorder(k: nat)
    requires 0 < k < |Suffix|
    ensures Suffix[k..] != Suffix[..|Suffix| - k]
  {
    assert Suffix[k..][0] == Suffix[k] && Suffix[..|Suffix| - k][0] == ' ';
    if k == 3 {
      assert Suffix[k..][1] == 's' && Suffix[..|Suffix| - k][1] == 'a';
    }
  }

  /** No stop falls inside a protected message that is followed by the source location. */
  lemma ProtectedServerNoStop(t: string, a: string, pb: string, tail: string, i: nat)
    requires t == a + pb + (Suffix + tail)
    requires '"' !in pb && !Occurs(pb, Suffix)
    requires |a| <= i < |a| + |pb|
    ensures !StopsAt(t, i)
  {
    var q := |a| + |pb|;
    var j := i - |a|;
    assert t[i] == pb[j];
    if i + |Suffix| <= |t| {
      if j + |Suffix| <= |pb| {
        assert !At(pb, j, Suffix);
        SliceMiddle(a, pb, Suffix + tail, i, |Suffix|);
      } else {
        var k := q - i;
        SuffixNoBorder(k);
        assert t == (a + pb) + (Suffix + tail);
        SliceRight(a + pb, Suffix + tail, q, |Suffix| - k);
        assert (Suffix + tail)[0..|Suffix| - k] == Suffix[..|Suffix| - k];
        assert t[i..i + |Suffix|][k..] == t[q..q + |Suffix| - k];
      }
    }
  }

  /** The marker after `pre` is the first one when `pre` starts none of its own. */
  lemma MarkerAfter(t: string, pre: string, mid: string, rest: string)
    requires t == pre + Marker + mid + rest
    requires forall i :: 0 <= i < |pre| ==> !At(pre + Marker, i, Marker)
    ensures At(t, |pre|, Marker) && forall i :: 0 <= i < |pre| ==> !At(t, i, Marker)
  {
    assert t == (pre + Marker) + (mid + rest);
    assert t[|pre|..|pre| + |Marker|] == Marker;
    forall i | 0 <= i < |pre|
      ensures !At(t, i, Marker)
    {
      assert !At(pre + Marker, i, Marker);
      assert t[i..i + |Marker|] == (pre + Marker)[i..i + |Marker|];
    }
  }

  /** The pattern captures exactly the protected message when the source location follows it. */
  lemma ProtectedServerCapture(pre: string, body: string, tail: string)
    requires forall i :: 0 <= i < |pre| ==> !At(pre + Marker, i, Marker)
    requires !Occurs(body, Suffix) && '"' in tail
    ensures Capture(pre + Marker + Protected(body) + Suffix + tail) == Some(Protected(body))
  {
    var a := pre + Marker;
    var pb := Protected(body);
    var c := Suffix + tail;
    var t := a + pb + c;
    assert pre + Marker + pb + Suffix + tail == t;
    MarkerAfter(t, pre, pb, c);
    ServerStopAt(t, a, pb, tail);
    ProtectedServerNoStops(t, a, body, tail);
    SliceMiddle(a, pb, c, |a|, |pb|);
    CaptureAt(t, |pre|, |a| + |pb|);
  }

  /** The source location right after the message, with a quote somewhere after it, is a stop. */
  lemma ServerStopAt(t: string, a: string, pb: string, tail: string)
    requires t == a + pb + (Suffix + tail) && '"' in tail
    ensures StopsAt(t, |a| + |pb|)
  {
    var q := |a| + |pb|;
    SliceRight(a + pb, Suffix + tail, q, |Suffix|);
    assert (Suffix + tail)[0..|Suffix|] == Suffix;
    var k :| 0 <= k < |tail| && tail[k] == '"';
    assert t[q + |Suffix| + k] == '"';
  }

  /** No stop falls anywhere inside the protected message. */
  lemma ProtectedServerNoStops(t: string, a: string, body: string, tail: string)
    requires t == a + Protected(body) + (Suffix + tail)
    requires !Occurs(body, Suffix)
    ensures forall i :: |a| <= i < |a| + |Protected(body)| ==> !StopsAt(t, i)
  {
    ReplaceCharsRemoves(body, {'"'}, Placeholder, '"');
    ProtectedAvoidsSuffix(body);
    forall i | |a| <= i < |a| + |Protected(body)|
      ensures !StopsAt(t, i)
    {
      ProtectedServerNoStop(t, a, Protected(body), tail, i);
    }
  }

  /**
   * A server error `... message: "<body> at src/dbserver/src..." ...` whose
   * message is written with escaped quotes filters to the message with
   * plain quotes: the source location is dropped and the quotes restored.
   */
  lemma FilterEscapedServerMessage(pre: string, body: string, tail: string)
    requires '\\' !in pre + body + tail && '\n' !in pre + body + tail && '\r' !in pre + body + tail
    requires forall i :: 0 <= i < |pre| ==> !At(pre + Marker, i, Marker)
    requires !Occurs(body, Placeholder) && !Occurs(body, Suffix)
    requires '"' in tail
    ensures FilterMessage(pre + Marker + Escaped(body) + Suffix + tail) == body
  {
    assert pre + Marker + Escaped(body) + Suffix + tail == pre + Marker + Escaped(body) + (Suffix + tail);
    NormalizeEscapedMessage(pre, body, Suffix + tail);
    assert pre + Marker + Protected(body) + (Suffix + tail) == pre + Marker + Protected(body) + Suffix + tail;
    ProtectedServerCapture(pre, body, tail);
    RestoreProtected(body);
    StripEscaped(body);
  }

  /**
   * `print_affected_rows`: the count by the server's convention; each way
   * the lookup can fail is a panic (`unwrap` on no batch or a failed
   * downcast, an out-of-bounds column or row index).
   */
  function PrintAffectedRows(batches: seq<Batch>): (r: Result<i64, Lookup>)
    ensures r.Success? <==> |batches| > 0 && |batches[0].columns| > 0 &&
                            batches[0].columns[0].Int64Col? && |batches[0].columns[0].i64s| > 0
    ensures r.Success? ==> r.value == batches[0].columns[0].i64s[0]
    ensures r == Failure(NoBatch) <==> batches == []
  {
    match AffectedRows(batches)
    case Rows(n) => Success(n)
    case other => Failure(other)
  }

  /** `make_insert_binding`: the fixture batch; the exit on a refused batch cannot happen. */
  function MakeInsertBinding(): (r: Result<Batch, string>)
    ensures r.Success? && IsInsertBinding(r.value) && WellFormed(r.value)
  {
    var columns := [TimestampCol(TimeZone, InsertTimestamps()), Int32Col(InsertSids),
                    Float32Col(InsertValues), Int8Col(InsertFlags)];
    match TryNew(InsertSchema, columns)
    case None => Failure("Failed to build a record batch")
    case Some(b) => Success(b)
  }

  /** `make_query_binding`: one row, one nullable Int32 column `sid`; it is never refused. */
  function MakeQueryBinding(sid: i32): (r: Result<Batch, string>)
    ensures r.Success? && WellFormed(r.value) && r.value.numRows == 1
    ensures r.value.schema == [Field("sid", Int32, true)] && r.value.columns == [Int32Col([sid])]
  {
    match TryNew([Field("sid", Int32, true)], [Int32Col([sid])])
    case None => Failure("Failed to build a record batch")
    case Some(b) => Success(b)
  }
}
