/**
 `extractJSON` (route.ts:14-18): the regular expression
 /```json\s*([\s\S]*?)```|```([\s\S]*?)```|([\s\S]*)/ applied with `match`,
 then the first truthy capture group of the three, trimmed.

 The third alternative matches at index 0 of every string, and a regular
 expression tries all of its alternatives at one index before moving on, so
 the match always starts at index 0: a fenced block is recognised only when
 the text begins with its opening fence.
 */
module Extract {
  import opened JsText

  const Fence: string := "```"
  const JsonOpen: string := "```json"

  predicate FenceAt(s: string, p: nat) {
    p + |Fence| <= |s| && s[p..p + |Fence|] == Fence
  }

  /** The first index at or after `from` where a fence starts: what a lazy `[\s\S]*?` followed by ``` stops at. */
  function FirstFence(s: string, from: nat): (r: Option<nat>)
    ensures r.Some? ==> from <= r.value && FenceAt(s, r.value)
    ensures r.Some? ==> forall q :: from <= q < r.value ==> !FenceAt(s, q)
    ensures r.None? ==> forall q :: from <= q ==> !FenceAt(s, q)
    decreases |s| - from
  {
    if from + |Fence| > |s| then None
    else if FenceAt(s, from) then Some(from)
    else FirstFence(s, from + 1)
  }

  /**
   A fence never starts on a whitespace character, so skipping whitespace
   first does not change where the first fence is. This is why backtracking
   the greedy `\s*` cannot produce a different match.
   */
  lemma {:induction false} FirstFenceSkipsWhitespace(s: string, i: nat, k: nat)
    requires i <= k <= |s| && AllWhitespace(s[i..k])
    ensures FirstFence(s, i) == FirstFence(s, k)
    decreases k - i
  {
    if i < k {
      assert IsWhitespace(s[i]) by { assert s[i..k][0] == s[i]; }
      assert !FenceAt(s, i) by {
        if i + |Fence| <= |s| { assert s[i..i + |Fence|][0] == s[i]; }
      }
      assert s[i + 1..k] == s[i..k][1..];
      FirstFenceSkipsWhitespace(s, i + 1, k);
    }
  }

  /** Where group 1 starts: after the label and all the whitespace the greedy `\s*` takes. */
  function ContentStart(text: string): (k: nat)
    requires JsonOpen <= text
    ensures |JsonOpen| <= k <= |text|
    ensures AllWhitespace(text[|JsonOpen|..k])
    ensures k == |text| || !IsWhitespace(text[k])
  {
    var k := |JsonOpen| + LeadingWhitespace(text[|JsonOpen|..]);
    assert text[|JsonOpen|..][..k - |JsonOpen|] == text[|JsonOpen|..k];
    k
  }

  /** Which alternative matched at index 0, with its capture group. */
  datatype RegexMatch = Labeled(group1: string) | Unlabeled(group2: string) | Rest(group3: string)

  /**
   `text.match(…)`: never null. The first alternative needs the text to
   begin with ```json; the greedy `\s*` takes all the whitespace after it
   and the lazy group runs to the first fence after that. Failing that, the
   second needs a leading fence and group 2 runs to the first fence after it.
   Failing both, the third captures the whole text.
   */
  function MatchAtStart(text: string): (m: RegexMatch)
    ensures m.Labeled? ==> JsonOpen <= text
    ensures m.Unlabeled? ==> Fence <= text
    ensures m.Rest? ==> m.group3 == text
  {
    if JsonOpen <= text && FirstFence(text, ContentStart(text)).Some? then
      Labeled(text[ContentStart(text)..FirstFence(text, ContentStart(text)).value])
    else if Fence <= text && FirstFence(text, |Fence|).Some? then
      Unlabeled(text[|Fence|..FirstFence(text, |Fence|).value])
    else
      Rest(text)
  }

  /** The result of `extractJSON`: the extracted text, or the TypeError of calling `.trim()` on `undefined`. */
  datatype Extracted = Json(text: string) | Thrown

  /**
   `(m[1] || m[2] || m[3]).trim()`. An empty group 1 or group 2 is falsy, and
   the other groups did not take part in the match, so the chain yields
   `undefined` and `.trim()` throws; group 3 is the chain's last operand and is
   used even when empty.
   */
  function ExtractJson(text: string): (r: Extracted)
    ensures r.Json? ==> Trimmed(r.text)
    ensures r.Thrown? ==> Fence <= text
    ensures !(Fence <= text) ==> r == Json(Trim(text))
  {
    assert JsonOpen[..|Fence|] == Fence;
    match MatchAtStart(text)
    case Labeled(g) => if g != "" then Json(Trim(g)) else Thrown
    case Unlabeled(g) => if g != "" then Json(Trim(g)) else Thrown
    case Rest(g) => Json(Trim(g))
  }

  /**
   A text that begins with ```json and has a fence after it yields the trimmed
   text between the label and the first such fence; when that text is only
   whitespace, the call throws.
   */
  lemma ExtractLabeled(text: string)
    requires JsonOpen <= text && FirstFence(text, |JsonOpen|).Some?
    ensures var p := FirstFence(text, |JsonOpen|).value;
            ExtractJson(text) == if AllWhitespace(text[|JsonOpen|..p]) then Thrown else Json(Trim(text[|JsonOpen|..p]))
  {
    var n := |JsonOpen|;
    var k := ContentStart(text);
    FirstFenceSkipsWhitespace(text, n, k);
    var p := FirstFence(text, n).value;
    assert MatchAtStart(text) == Labeled(text[k..p]);
    assert text[n..p] == text[n..k] + text[k..p];
    if k < p {
      assert text[n..p][k - n] == text[k];
      TrimIgnoresLeadingWhitespace(text[n..k], text[k..p]);
    }
  }

  /**
   Otherwise a text that begins with a fence and has another after it yields
   the trimmed text between the two; when the two fences touch, the call throws.
   */
  lemma ExtractUnlabeled(text: string)
    requires Fence <= text && FirstFence(text, |Fence|).Some?
    requires !(JsonOpen <= text && FirstFence(text, |JsonOpen|).Some?)
    ensures var p := FirstFence(text, |Fence|).value;
            ExtractJson(text) == if p == |Fence| then Thrown else Json(Trim(text[|Fence|..p]))
  {
    if JsonOpen <= text {
      FirstFenceSkipsWhitespace(text, |JsonOpen|, ContentStart(text));
    }
  }

  /**
   A text that begins with ```json but has no fence after the label is not
   rescued by the second alternative: the characters of `json` cannot start a
   fence. The whole text is used.
   */
  lemma ExtractUnclosedLabel(text: string)
    requires JsonOpen <= text && FirstFence(text, |JsonOpen|).None?
    ensures ExtractJson(text) == Json(Trim(text))
  {
    var n := |JsonOpen|;
    FirstFenceSkipsWhitespace(text, n, ContentStart(text));
    forall q | |Fence| <= q < n
      ensures !FenceAt(text, q)
    {
      assert text[q] == JsonOpen[q];
      assert q + |Fence| <= |text| ==> text[q..q + |Fence|][0] == text[q];
    }
    assert FirstFence(text, |Fence|).None?;
  }

  /** A text that begins with a fence but has none after it is used whole. */
  lemma ExtractUnclosedFence(text: string)
    requires Fence <= text && FirstFence(text, |Fence|).None?
    ensures ExtractJson(text) == Json(Trim(text))
  {
    if JsonOpen <= text {
      FirstFenceSkipsWhitespace(text, |JsonOpen|, ContentStart(text));
      assert FirstFence(text, |JsonOpen|).None?;
    }
  }

  /** Extraction never leaves surrounding whitespace, and re-trimming its result changes nothing. */
  lemma ExtractedIsTrimmed(text: string)
    requires ExtractJson(text).Json?
    ensures Trim(ExtractJson(text).text) == ExtractJson(text).text
  {
    TrimOfTrimmed(ExtractJson(text).text);
  }

  lemma FenceStartsWithBacktick(s: string, p: nat)
    requires FenceAt(s, p)
    ensures s[p] == '`'
  {
    assert s[p..p + |Fence|][0] == s[p];
  }

  /** A block `open + body + fence + tail` whose body has no backtick closes at the end of the body. */
  lemma FencedBlock(open: string, body: string, tail: string)
    requires '`' !in body
    ensures FirstFence(open + body + Fence + tail, |open|) == Some(|open| + |body|)
  {
    var s := open + body + Fence + tail;
    var p := |open| + |body|;
    assert s[p..p + |Fence|] == Fence;
    forall q | |open| <= q < p
      ensures !FenceAt(s, q)
    {
      assert s[q] == body[q - |open|];
      if FenceAt(s, q) { FenceStartsWithBacktick(s, q); }
    }
    assert FenceAt(s, p);
  }

  /** The padded body `w1 + core + w2` has no backtick, is not all whitespace, and trims to `core`. */
  lemma PaddedBody(core: string, w1: string, w2: string)
    requires core != [] && Trimmed(core) && '`' !in core
    requires AllWhitespace(w1) && AllWhitespace(w2)
    ensures '`' !in w1 + core + w2
    ensures !AllWhitespace(w1 + core + w2)
    ensures Trim(w1 + core + w2) == core
  {
    var body := w1 + core + w2;
    forall i | 0 <= i < |body|
      ensures body[i] != '`'
    {
      if i < |w1| { assert body[i] == w1[i]; }
      else if i < |w1| + |core| { assert body[i] == core[i - |w1|]; }
      else { assert body[i] == w2[i - |w1| - |core|]; }
    }
    assert body[|w1|] == core[0];
    TrimOfPadded(w1, core, w2);
  }

  /**
   A text that begins with a ```json block whose body has no backtick yields
   the trimmed body, whatever follows the block; a body of whitespace only
   makes the call throw.
   */
  lemma ExtractLabeledBlock(body: string, tail: string)
    requires '`' !in body
    ensures ExtractJson(JsonOpen + body + Fence + tail)
            == if AllWhitespace(body) then Thrown else Json(Trim(body))
  {
    var text := JsonOpen + body + Fence + tail;
    assert FirstFence(text, |JsonOpen|) == Some(|JsonOpen| + |body|) by {
      FencedBlock(JsonOpen, body, tail);
    }
    assert text[|JsonOpen|..|JsonOpen| + |body|] == body;
    ExtractLabeled(text);
  }

  /**
   A text that begins with an unlabeled block whose body has no backtick and
   does not begin with `j` yields the trimmed body, whatever follows the
   block; touching fences make the call throw.
   */
  lemma ExtractUnlabeledBlock(body: string, tail: string)
    requires '`' !in body && (body == [] || body[0] != 'j')
    ensures ExtractJson(Fence + body + Fence + tail)
            == if body == [] then Thrown else Json(Trim(body))
  {
    var text := Fence + body + Fence + tail;
    assert FirstFence(text, |Fence|) == Some(|Fence| + |body|) by {
      FencedBlock(Fence, body, tail);
    }
    assert !(JsonOpen <= text) by {
      assert JsonOpen[|Fence|] == 'j';
      if body == [] {
        assert text[|Fence|] == '`';
      } else {
        assert text[|Fence|] == body[0];
      }
    }
    assert text[|Fence|..|Fence| + |body|] == body;
    ExtractUnlabeled(text);
  }

  /**
   Wrapping a trimmed JSON text in a ```json block, with any whitespace around
   it, and extracting gives the text back.
   */
  lemma ExtractLabeledRoundTrip(core: string, w1: string, w2: string)
    requires core != [] && Trimmed(core) && '`' !in core
    requires AllWhitespace(w1) && AllWhitespace(w2)
    ensures ExtractJson(JsonOpen + w1 + core + w2 + Fence) == Json(core)
  {
    var body := w1 + core + w2;
    assert JsonOpen + w1 + core + w2 + Fence == JsonOpen + body + Fence + "" by {
      assert JsonOpen + w1 + core + w2 == JsonOpen + body;
    }
    assert ExtractJson(JsonOpen + body + Fence + "") == Json(core) by {
      PaddedBody(core, w1, w2);
      ExtractLabeledBlock(body, "");
    }
  }

  /**
   The same for an unlabeled block, provided the block does not itself read
   as ```json (its first character after the fence is not the `j` of a label).
   */
  lemma ExtractUnlabeledRoundTrip(core: string, w1: string, w2: string)
    requires core != [] && Trimmed(core) && '`' !in core
    requires AllWhitespace(w1) && AllWhitespace(w2)
    requires w1 != [] || core[0] != 'j'
    ensures ExtractJson(Fence + w1 + core + w2 + Fence) == Json(core)
  {
    var body := w1 + core + w2;
    assert Fence + w1 + core + w2 + Fence == Fence + body + Fence + "" by {
      assert Fence + w1 + core + w2 == Fence + body;
    }
    assert ExtractJson(Fence + body + Fence + "") == Json(core) by {
      assert body[0] != 'j' by {
        if w1 != [] { assert body[0] == w1[0]; assert IsWhitespace(w1[0]); } else { assert body[0] == core[0]; }
      }
      PaddedBody(core, w1, w2);
      ExtractUnlabeledBlock(body, "");
    }
  }

  /** Bare, trimmed text that does not start with a backtick is extracted unchanged. */
  lemma ExtractBareRoundTrip(core: string)
    requires Trimmed(core) && (core == [] || core[0] != '`')
    ensures ExtractJson(core) == Json(core)
  {
    TrimOfTrimmed(core);
  }

  /**
   A labeled block holding only whitespace, or two fences that touch, make
   `extractJSON` throw, whatever follows.
   */
  lemma ExtractEmptyBlockThrows(w: string, tail: string)
    requires AllWhitespace(w) && '`' !in w
    ensures ExtractJson(JsonOpen + w + Fence + tail) == Thrown
    ensures ExtractJson(Fence + Fence + tail) == Thrown
  {
    ExtractLabeledBlock(w, tail);
    assert Fence + Fence + tail == Fence + "" + Fence + tail;
    ExtractUnlabeledBlock("", tail);
  }

  /** A trimmed reply that begins with an empty block, labeled or not, makes `extractJSON` throw. */
  lemma EmptyBlockAfterTrim(open: string, w: string, tail: string)
    requires AllWhitespace(w) && '`' !in w
    requires open == JsonOpen + w + Fence || open == Fence + Fence
    ensures ExtractJson(Trim(open + tail)) == Thrown
  {
    assert Trimmed(open) by {
      assert open[0] == '`' && open[|open| - 1] == '`';
    }
    TrimKeepsPrefix(open, tail);
    var rest := Trim(open + tail)[|open|..];
    assert Trim(open + tail) == open + rest;
    ExtractEmptyBlockThrows(w, rest);
    if open == JsonOpen + w + Fence {
      assert open + rest == JsonOpen + w + Fence + rest;
    } else {
      assert open + rest == Fence + Fence + rest;
    }
  }

  /**
   A reply made of a fenced block, labeled or not, with whitespace around it
   trims to the block, and the block extracts to the text inside it.
   */
  lemma FencedBlockAfterTrim(lead: string, w1: string, core: string, w2: string, trail: string, labeled: bool)
    requires core != [] && Trimmed(core) && '`' !in core
    requires AllWhitespace(lead) && AllWhitespace(w1) && AllWhitespace(w2) && AllWhitespace(trail)
    requires !labeled ==> w1 != [] || core[0] != 'j'
    ensures var block := (if labeled then JsonOpen else Fence) + w1 + core + w2 + Fence;
            Trim(lead + block + trail) == block && ExtractJson(block) == Json(core)
  {
    var block := (if labeled then JsonOpen else Fence) + w1 + core + w2 + Fence;
    assert Trim(lead + block + trail) == block by {
      assert block[0] == '`' && block[|block| - 1] == '`';
      TrimOfPadded(lead, block, trail);
    }
    if labeled {
      ExtractLabeledRoundTrip(core, w1, w2);
    } else {
      ExtractUnlabeledRoundTrip(core, w1, w2);
    }
  }

  /** An empty reply is not a throw: the third group is used even when empty. */
  lemma ExtractEmpty()
    ensures ExtractJson("") == Json("")
  {
    TrimOfTrimmed("");
  }
}
