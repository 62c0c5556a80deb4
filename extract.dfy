/**
 * Turning the model's reply into the displayed output (RefactorTool.jsx,
 * "Response Parsing"). For every option except "explain" the reply is
 * searched as the regular expression /```(?:python\n)?([\s\S]*?)```/ would:
 * the match starts at the first fence (three backticks), skips an immediately
 * following `python` and newline, and captures lazily up to the next fence.
 * Without a match, or when the capture is empty, the whole reply is used.
 * Either way the text is trimmed.
 */
module Extract {
  import opened Wrappers
  import opened Text
  import Prompt

  /** A fence, three backticks, starts at index i of s. */
  predicate FenceAt(s: string, i: int) {
    0 <= i && i + 3 <= |s| && s[i] == '`' && s[i + 1] == '`' && s[i + 2] == '`'
  }

  /** The optional language tag of the regular expression, `python` and a newline, starts at index i. */
  predicate PythonTagAt(s: string, i: int) {
    && 0 <= i && i + 7 <= |s|
    && s[i] == 'p' && s[i + 1] == 'y' && s[i + 2] == 't' && s[i + 3] == 'h'
    && s[i + 4] == 'o' && s[i + 5] == 'n' && s[i + 6] == '\n'
  }

  /** No fence starts at any index in [lo, hi). */
  predicate NoFenceIn(s: string, lo: int, hi: int) {
    forall k :: lo <= k < hi ==> !FenceAt(s, k)
  }

  predicate FenceFree(s: string) {
    NoFenceIn(s, 0, |s|)
  }

  /** No fence is followed, at or after its own end, by another: nothing for the regular expression to match. */
  ghost predicate NoFencePair(s: string) {
    forall i, c :: 0 <= i && i + 3 <= c ==> !(FenceAt(s, i) && FenceAt(s, c))
  }

  /** The first fence at or after index `from`. */
  function FindFence(s: string, from: nat): (r: Option<nat>)
    decreases |s| - from
    ensures r.Some? ==> from <= r.value && FenceAt(s, r.value) && NoFenceIn(s, from, r.value)
    ensures r.None? ==> NoFenceIn(s, from, |s|)
  {
    if from + 3 > |s| then None
    else if FenceAt(s, from) then Some(from)
    else FindFence(s, from + 1)
  }

  /** Where a match of the regular expression opens, where its capture starts and where it closes. */
  datatype FenceMatch = FenceMatch(open: nat, bodyStart: nat, close: nat)

  /** The capture starts after the opening fence, and after the tag when the tag follows it. */
  function BodyStart(s: string, open: nat): nat {
    open + 3 + (if PythonTagAt(s, open + 3) then 7 else 0)
  }

  /** The tag holds no backtick, so no fence starts inside it. */
  lemma NoFenceInTag(s: string, i: nat)
    requires PythonTagAt(s, i)
    ensures NoFenceIn(s, i, i + 7)
  {
  }

  /**
   * The match of /```(?:python\n)?([\s\S]*?)```/ in s. Only the first fence
   * can open a match: a closing fence after any later opening also lies after
   * the first one. Falling back from the tagged to the untagged alternative
   * never finds a closer fence, since the tag holds no backtick.
   */
  function MatchCodeBlock(s: string): (m: Option<FenceMatch>)
    ensures m.Some? ==>
      && FenceAt(s, m.value.open) && NoFenceIn(s, 0, m.value.open)
      && m.value.bodyStart == BodyStart(s, m.value.open)
      && m.value.bodyStart <= m.value.close
      && FenceAt(s, m.value.close) && NoFenceIn(s, m.value.bodyStart, m.value.close)
    ensures m.None? ==> FenceFree(s) || (FindFence(s, 0).Some? && NoFenceIn(s, BodyStart(s, FindFence(s, 0).value), |s|))
  {
    match FindFence(s, 0)
    case None => None
    case Some(open) =>
      var b := BodyStart(s, open);
      var close := FindFence(s, b);
      if close.None? then None else Some(FenceMatch(open, b, close.value))
  }

  /** The regular expression fails exactly when no fence is followed by another. */
  lemma MatchNoneIffNoPair(s: string)
    ensures MatchCodeBlock(s).None? <==> NoFencePair(s)
  {
    var m := MatchCodeBlock(s);
    if m.Some? {
      assert FenceAt(s, m.value.open) && FenceAt(s, m.value.close);
    } else if !FenceFree(s) {
      NoCloseMeansNoPair(s, FindFence(s, 0).value);
    }
  }

  /** When nothing closes the first fence, no fence in s can be closed. */
  lemma NoCloseMeansNoPair(s: string, open: nat)
    requires FenceAt(s, open) && NoFenceIn(s, 0, open)
    requires NoFenceIn(s, BodyStart(s, open), |s|)
    ensures NoFencePair(s)
  {
    if PythonTagAt(s, open + 3) { NoFenceInTag(s, open + 3); }
    forall i, c | 0 <= i && i + 3 <= c ensures !(FenceAt(s, i) && FenceAt(s, c)) {
      assert FenceAt(s, i) ==> open <= i;
    }
  }


  /** The three facts of MatchCodeBlock's contract pin the match down: no other positions satisfy them. */
  lemma MatchCodeBlockUnique(s: string, open: nat, close: nat)
    requires FenceAt(s, open) && NoFenceIn(s, 0, open)
    requires BodyStart(s, open) <= close && FenceAt(s, close) && NoFenceIn(s, BodyStart(s, open), close)
    ensures MatchCodeBlock(s) == Some(FenceMatch(open, BodyStart(s, open), close))
  {
    var m := MatchCodeBlock(s);
    assert m.Some?;
    assert m.value.open == open;
    assert m.value.close == close;
  }

  /** The displayed output for the reply `rawText` under the selected option. */
  function ExtractCode(option: string, rawText: string): (out: string)
    ensures IsTrimmed(out) && |out| <= |rawText|
  {
    if option != Prompt.ExplainOption then
      var m := MatchCodeBlock(rawText);
      if m.Some? && m.value.bodyStart < m.value.close then
        Trim(rawText[m.value.bodyStart..m.value.close])
      else
        Trim(rawText)
    else
      Trim(rawText)
  }

  /** A fence inside a piece of s is a fence of s; inside the piece, a tag of the piece is a tag of s. */
  lemma InfixFences(s: string, i: nat, j: nat)
    requires i <= j <= |s|
    ensures forall k :: FenceAt(s[i..j], k) ==> FenceAt(s, i + k)
    ensures forall k :: 0 <= k && k + 3 <= j - i ==> (FenceAt(s, i + k) ==> FenceAt(s[i..j], k))
    ensures forall k :: PythonTagAt(s[i..j], k) ==> PythonTagAt(s, i + k)
    ensures forall k :: 0 <= k && k + 7 <= j - i ==> (PythonTagAt(s, i + k) ==> PythonTagAt(s[i..j], k))
  {
  }

  /** A text without fences has none in any of its pieces. */
  lemma FenceFreeInfix(s: string, i: nat, j: nat)
    requires i <= j <= |s| && FenceFree(s)
    ensures FenceFree(s[i..j])
  {
    InfixFences(s, i, j);
  }

  /** A fence-free text laid into s at offset `off` leaves no fence starting inside it, except in its last two characters. */
  lemma FenceFreeLaidIn(t: string, s: string, off: nat)
    requires FenceFree(t) && off + |t| <= |s| && s[off..off + |t|] == t
    ensures NoFenceIn(s, off, off + |t| - 2)
  {
    forall k | off <= k < off + |t| - 2 ensures !FenceAt(s, k) {
      assert s[k] == t[k - off] && s[k + 1] == t[k + 1 - off] && s[k + 2] == t[k + 2 - off];
      assert !FenceAt(t, k - off);
    }
  }

  /** A piece of s that still holds the whole match of s holds the same match, shifted. */
  lemma MatchInInfix(s: string, i: nat, j: nat)
    requires MatchCodeBlock(s).Some?
    requires i <= MatchCodeBlock(s).value.open
    requires MatchCodeBlock(s).value.close + 3 <= j <= |s|
    ensures var m := MatchCodeBlock(s).value;
      MatchCodeBlock(s[i..j]) == Some(FenceMatch(m.open - i, m.bodyStart - i, m.close - i))
  {
    var m := MatchCodeBlock(s).value;
    var t := s[i..j];
    InfixFences(s, i, j);
    assert FenceAt(t, m.open - i) && FenceAt(t, m.close - i);
    assert PythonTagAt(s, m.open + 3) ==> PythonTagAt(t, m.open - i + 3);
    assert BodyStart(t, m.open - i) == m.bodyStart - i;
    MatchCodeBlockUnique(t, m.open - i, m.close - i);
  }

  /** With "explain" the reply is only trimmed, fences and all. */
  lemma ExplainIgnoresFences(rawText: string)
    ensures ExtractCode(Prompt.ExplainOption, rawText) == Trim(rawText)
  {
  }

  /** The tag stripped after the opening fence: "python" and a newline. */
  const PythonTag: string := "python\n"

  /**
   * Round trip: a reply holding a fenced block, tagged "python" or untagged,
   * yields the block's body trimmed, whatever comes after the block (later
   * blocks included). The text before the block and the body must hold no
   * fence, counting the backticks of the fence after each.
   */
  lemma FirstBlockExtracted(option: string, rawText: string, prefix: string, tag: string, body: string, rest: string)
    requires option != Prompt.ExplainOption
    requires rawText == prefix + "```" + tag + body + "```" + rest
    requires tag == PythonTag || (tag == [] && !(|body| >= 7 && body[..7] == PythonTag))
    requires FenceFree(prefix + "``") && FenceFree(body + "``") && body != []
    ensures ExtractCode(option, rawText) == Trim(body)
  {
    var b := |prefix| + 3 + |tag|;
    FirstBlockMatched(prefix, tag, body, rest);
    BodyLaidIn(prefix + "```" + tag, body, "```" + rest);
    assert rawText == (prefix + "```" + tag) + body + ("```" + rest);
    ExtractFromMatch(option, rawText, FenceMatch(|prefix|, b, b + |body|));
  }

  /** The middle piece of a concatenation sits right after the first. */
  lemma BodyLaidIn(head: string, body: string, tail: string)
    ensures (head + body + tail)[|head|..|head| + |body|] == body
  {
  }

  /** With a non-empty capture, the output is the capture trimmed. */
  lemma ExtractFromMatch(option: string, rawText: string, m: FenceMatch)
    requires option != Prompt.ExplainOption
    requires MatchCodeBlock(rawText) == Some(m) && m.bodyStart < m.close
    ensures ExtractCode(option, rawText) == Trim(rawText[m.bodyStart..m.close])
  {
  }

  /** Where the match of the regular expression lies in a reply of FirstBlockExtracted's form. */
  lemma FirstBlockMatched(prefix: string, tag: string, body: string, rest: string)
    requires tag == PythonTag || (tag == [] && !(|body| >= 7 && body[..7] == PythonTag))
    requires FenceFree(prefix + "``") && FenceFree(body + "``")
    ensures var raw, o := prefix + "```" + tag + body + "```" + rest, |prefix|;
      MatchCodeBlock(raw) == Some(FenceMatch(o, o + 3 + |tag|, o + 3 + |tag| + |body|))
  {
    var raw := prefix + "```" + tag + body + "```" + rest;
    var o := |prefix|;
    var b := o + 3 + |tag|;
    var c := b + |body|;
    FirstBlockLayout(prefix, tag, body, rest);
    FirstBlockTag(tag, body, raw, o);
    MatchCodeBlockUnique(raw, o, c);
  }

  /** The fences of a reply of FirstBlockExtracted's form, and the stretches free of fences. */
  lemma FirstBlockLayout(prefix: string, tag: string, body: string, rest: string)
    requires FenceFree(prefix + "``") && FenceFree(body + "``")
    ensures var raw, o := prefix + "```" + tag + body + "```" + rest, |prefix|;
      && FenceAt(raw, o) && NoFenceIn(raw, 0, o)
      && FenceAt(raw, o + 3 + |tag| + |body|) && NoFenceIn(raw, o + 3 + |tag|, o + 3 + |tag| + |body|)
      && raw[o + 3..o + 4 + |tag| + |body|] == tag + body + "`"
  {
    var raw := prefix + "```" + tag + body + "```" + rest;
    var b := |prefix| + 3 + |tag|;
    assert raw == (prefix + "``") + ("`" + tag + body + "```" + rest);
    FenceFreeLaidIn(prefix + "``", raw, 0);
    assert raw == (prefix + "```" + tag) + (body + "``") + ("`" + rest);
    FenceFreeLaidIn(body + "``", raw, b);
    assert raw == (prefix + "```") + (tag + body + "`") + ("``" + rest);
  }

  /** The tag check after the opening fence succeeds exactly for the stripped tag. */
  lemma FirstBlockTag(tag: string, body: string, raw: string, o: nat)
    requires tag == PythonTag || (tag == [] && !(|body| >= 7 && body[..7] == PythonTag))
    requires o + 4 + |tag| + |body| <= |raw| && raw[o + 3..o + 4 + |tag| + |body|] == tag + body + "`"
    ensures BodyStart(raw, o) == o + 3 + |tag|
  {
    var r := raw[o + 3..o + 4 + |tag| + |body|];
    assert forall k :: 0 <= k < |r| ==> raw[o + 3 + k] == r[k];
    if tag == [] && |body| >= 7 {
      assert forall k :: 0 <= k < 7 ==> r[k] == body[..7][k];
    }
  }

  /** The reply the templates ask for: a single python block around the code. */
  lemma PythonBlockRoundTrip(option: string, code: string)
    requires option != Prompt.ExplainOption
    requires FenceFree(code + "``") && code != []
    ensures ExtractCode(option, "```python\n" + code + "```") == Trim(code)
  {
    assert FenceFree([] + "``");
    FirstBlockExtracted(option, "```python\n" + code + "```", [], PythonTag, code, []);
  }

  /**
   * The reply the templates ask for, code on its own lines inside a python
   * block, is shown as that code trimmed: the newline before the closing
   * fence keeps a trailing backtick of the code from joining it.
   */
  lemma TemplateReplyRoundTrip(option: string, code: string)
    requires option != Prompt.ExplainOption
    requires FenceFree(code)
    ensures ExtractCode(option, "```python\n" + code + "\n```") == Trim(code)
  {
    var body := code + "\n";
    assert FenceFree(body + "``") by {
      forall k | 0 <= k < |body| + 2 ensures !FenceAt(body + "``", k) {
        if k < |code| - 2 {
          assert !FenceAt(code, k);
        } else {
          assert (body + "``")[|code|] == '\n';
        }
      }
    }
    assert "```python\n" + code + "\n```" == "```python\n" + body + "```";
    PythonBlockRoundTrip(option, body);
    TrimIgnoresAppendedWhitespace(code, "\n");
  }

  /**
   * "No triple backtick in the body" is not enough for the round trip: a
   * body ending in a backtick forms a fence with the closing delimiter's
   * first two backticks, and the lazy capture stops there. The reply
   * "```python\n" + x + "`" + "```" shows x, not x + "`".
   */
  lemma TrailingBacktickCutsBody(option: string, x: string)
    requires option != Prompt.ExplainOption
    requires FenceFree(x + "``") && x != [] && IsTrimmed(x)
    ensures ExtractCode(option, "```python\n" + x + "````") == x
    ensures Trim(x + "`") == x + "`" != x
  {
    assert FenceFree([] + "``");
    assert "```python\n" + x + "````" == [] + "```" + PythonTag + x + "```" + "`";
    FirstBlockExtracted(option, "```python\n" + x + "````", [], PythonTag, x, "`");
    TrimLeavesTrimmed(x);
    TrimLeavesTrimmed(x + "`");
  }

  /** Only the exact tag is stripped: after "py" and a newline the tag stays in the captured body. */
  lemma OtherTagKept(option: string, code: string)
    requires option != Prompt.ExplainOption
    requires FenceFree(code + "``")
    ensures ExtractCode(option, "```py\n" + code + "```") == Trim("py\n" + code)
  {
    var body := "py\n" + code;
    assert FenceFree(body + "``") by {
      assert body + "``" == "py\n" + (code + "``");
      forall k | 0 <= k < |body| + 2 ensures !FenceAt(body + "``", k) {
        if k >= 3 { assert !FenceAt(code + "``", k - 3); }
      }
    }
    assert body[2] == '\n';
    assert FenceFree([] + "``");
    FirstBlockExtracted(option, "```py\n" + code + "```", [], [], body, []);
  }

  /** Without an opening fence followed by a closing one, the whole reply is shown, trimmed. */
  lemma NoBlockFallsBack(option: string, rawText: string)
    requires NoFencePair(rawText)
    ensures ExtractCode(option, rawText) == Trim(rawText)
  {
    MatchNoneIffNoPair(rawText);
  }

  /** An empty capture counts as no match (the capture is tested for truthiness): the whole reply is shown, trimmed. */
  lemma EmptyCaptureFallsBack(option: string, rawText: string)
    requires MatchCodeBlock(rawText).Some?
    requires MatchCodeBlock(rawText).value.bodyStart == MatchCodeBlock(rawText).value.close
    ensures ExtractCode(option, rawText) == Trim(rawText)
  {
  }

  /** Six backticks in a row are shown as they are: the capture between the two fences is empty. */
  lemma SixBackticksShownAsIs(option: string)
    ensures ExtractCode(option, "``````") == "``````"
  {
    var six := "``````";
    assert BodyStart(six, 0) == 3;
    EmptyCaptureShownAsIs(option, six, 3);
  }

  /** A tagged fence closed at once is shown as it is. */
  lemma EmptyPythonBlockShownAsIs(option: string, tagged: string)
    requires tagged == "```python\n```"
    ensures ExtractCode(option, tagged) == tagged
  {
    assert PythonTagAt(tagged, 3);
    EmptyCaptureShownAsIs(option, tagged, 10);
  }

  /** A trimmed reply that opens with a fence closed right where the capture starts is shown as it is. */
  lemma EmptyCaptureShownAsIs(option: string, s: string, b: nat)
    requires FenceAt(s, 0) && BodyStart(s, 0) == b && FenceAt(s, b) && IsTrimmed(s)
    ensures ExtractCode(option, s) == s
  {
    MatchCodeBlockUnique(s, 0, b);
    EmptyCaptureFallsBack(option, s);
    TrimLeavesTrimmed(s);
  }

  /** A trimmed reply without fences is its own output, under every option. */
  lemma FenceFreeFixedPoint(option: string, s: string)
    requires FenceFree(s) && IsTrimmed(s)
    ensures ExtractCode(option, s) == s
  {
    assert !MatchCodeBlock(s).Some?;
    TrimLeavesTrimmed(s);
  }

  /** Extracting again from an output changes nothing, for every reply and option. */
  lemma ExtractIdempotent(option: string, rawText: string)
    ensures ExtractCode(option, ExtractCode(option, rawText)) == ExtractCode(option, rawText)
  {
    var m := MatchCodeBlock(rawText);
    if option == Prompt.ExplainOption {
      TrimIdempotent(rawText);
    } else if m.Some? && m.value.bodyStart < m.value.close {
      IdempotentOnBlock(option, rawText);
    } else if m.None? {
      IdempotentWithoutBlock(option, rawText);
    } else {
      IdempotentOnEmptyCapture(option, rawText);
    }
  }

  /** The captured body holds no fence, so neither does its trimmed form. */
  lemma IdempotentOnBlock(option: string, rawText: string)
    requires option != Prompt.ExplainOption
    requires MatchCodeBlock(rawText).Some?
    requires MatchCodeBlock(rawText).value.bodyStart < MatchCodeBlock(rawText).value.close
    ensures ExtractCode(option, ExtractCode(option, rawText)) == ExtractCode(option, rawText)
  {
    var m := MatchCodeBlock(rawText).value;
    var body := rawText[m.bodyStart..m.close];
    ExtractFromMatch(option, rawText, m);
    CaptureFenceFree(rawText, m);
    TrimFenceFree(body);
    FenceFreeFixedPoint(option, Trim(body));
  }

  /** The lazy capture stops at the first fence, so it contains none. */
  lemma CaptureFenceFree(rawText: string, m: FenceMatch)
    requires MatchCodeBlock(rawText) == Some(m)
    ensures FenceFree(rawText[m.bodyStart..m.close])
  {
    InfixFences(rawText, m.bodyStart, m.close);
  }

  /** Trimming cannot create a fence. */
  lemma TrimFenceFree(s: string)
    requires FenceFree(s)
    ensures FenceFree(Trim(s))
  {
    FenceFreeInfix(s, TrimOffset(s), TrimOffset(s) + |Trim(s)|);
  }

  /** Trimming a text without a fence pair leaves none. */
  lemma TrimKeepsNoPair(s: string)
    requires NoFencePair(s)
    ensures NoFencePair(Trim(s))
  {
    NoPairInPiece(s, Trim(s), TrimOffset(s));
  }

  /** A piece of a text without a fence pair has none either. */
  lemma NoPairInPiece(s: string, t: string, i: nat)
    requires NoFencePair(s) && i + |t| <= |s| && t == s[i..i + |t|]
    ensures NoFencePair(t)
  {
    InfixFences(s, i, i + |t|);
    forall a, c | 0 <= a && a + 3 <= c ensures !(FenceAt(t, a) && FenceAt(t, c)) {
      assert FenceAt(t, a) ==> FenceAt(s, i + a);
      assert FenceAt(t, c) ==> FenceAt(s, i + c);
    }
  }

  /** Without a match the output is the trimmed reply, which has no match either. */
  lemma IdempotentWithoutBlock(option: string, rawText: string)
    requires MatchCodeBlock(rawText).None?
    ensures ExtractCode(option, ExtractCode(option, rawText)) == ExtractCode(option, rawText)
  {
    MatchNoneIffNoPair(rawText);
    NoBlockFallsBack(option, rawText);
    TrimKeepsNoPair(rawText);
    NoBlockFallsBack(option, Trim(rawText));
    TrimIdempotent(rawText);
  }

  /** The trimmed reply keeps both fences, so its capture is empty again. */
  lemma IdempotentOnEmptyCapture(option: string, rawText: string)
    requires MatchCodeBlock(rawText).Some?
    requires MatchCodeBlock(rawText).value.bodyStart == MatchCodeBlock(rawText).value.close
    ensures ExtractCode(option, ExtractCode(option, rawText)) == ExtractCode(option, rawText)
  {
    EmptyCaptureSurvivesTrim(rawText);
    EmptyCaptureFallsBack(option, rawText);
    EmptyCaptureFallsBack(option, Trim(rawText));
    TrimIdempotent(rawText);
  }

  /** Fences are not whitespace: trimming keeps the whole match, and so its empty capture. */
  lemma EmptyCaptureSurvivesTrim(rawText: string)
    requires MatchCodeBlock(rawText).Some?
    requires MatchCodeBlock(rawText).value.bodyStart == MatchCodeBlock(rawText).value.close
    ensures MatchCodeBlock(Trim(rawText)).Some?
    ensures MatchCodeBlock(Trim(rawText)).value.bodyStart == MatchCodeBlock(Trim(rawText)).value.close
  {
    TrimKeepsMatch(rawText);
  }

  /** The match of the trimmed reply is the match of the reply, shifted by the whitespace dropped in front. */
  lemma TrimKeepsMatch(s: string)
    requires MatchCodeBlock(s).Some?
    ensures MatchCodeBlock(Trim(s)).Some?
    ensures var m, t, i := MatchCodeBlock(s).value, MatchCodeBlock(Trim(s)).value, TrimOffset(s);
      t.open + i == m.open && t.bodyStart + i == m.bodyStart && t.close + i == m.close
  {
    var m := MatchCodeBlock(s).value;
    FenceSurvivesTrim(s, m.open);
    FenceSurvivesTrim(s, m.close);
    MatchInPiece(s, Trim(s), TrimOffset(s));
  }

  /** A fence is not whitespace, so trimming keeps it whole. */
  lemma FenceSurvivesTrim(s: string, k: nat)
    requires FenceAt(s, k)
    ensures TrimOffset(s) <= k && k + 3 <= TrimOffset(s) + |Trim(s)|
  {
    TrimKeepsNonWhitespace(s, k);
    TrimKeepsNonWhitespace(s, k + 2);
  }

  /** MatchInInfix, for a piece given by its start. */
  lemma MatchInPiece(s: string, t: string, i: nat)
    requires MatchCodeBlock(s).Some?
    requires i <= MatchCodeBlock(s).value.open
    requires MatchCodeBlock(s).value.close + 3 <= i + |t| <= |s| && t == s[i..i + |t|]
    ensures var m := MatchCodeBlock(s).value;
      MatchCodeBlock(t) == Some(FenceMatch(m.open - i, m.bodyStart - i, m.close - i))
  {
    MatchInInfix(s, i, i + |t|);
  }
}
