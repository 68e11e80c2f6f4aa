/** The deterministic parts of the calls to the language model: reading the estimated total out
    of the estimate's text, turning a reply into at most four clarifying questions, trimming the
    chat history to its last ten messages, and cleaning an audio MIME type. The calls themselves
    are not part of this model: their replies are parameters. */
module Gemini {
  import opened Wrappers
  import opened Seqs
  import opened Text
  import opened Model

  /** The marker before the total, as the case-insensitive pattern compares it. */
  const Marker: string := "valor total estimado"

  /** A character of the captured run `[\d.,]`. */
  predicate IsAmountChar(c: char)
  {
    IsDigit(c) || c == '.' || c == ','
  }

  /** End of the longest run of amount characters starting at `j` (the greedy `+`). */
  function RunEnd(s: string, j: nat): (r: nat)
    requires j <= |s|
    ensures j <= r <= |s|
    ensures forall k :: j <= k < r ==> IsAmountChar(s[k])
    ensures r == |s| || !IsAmountChar(s[r])
    decreases |s| - j
  {
    if j < |s| && IsAmountChar(s[j]) then RunEnd(s, j + 1) else j
  }

  /** The pattern `Valor Total Estimado:?\s*R\$\s*([\d.,]+)`, ignoring case, tried at position
      `i`: the captured run when it matches there. Once the marker matches, every part of the
      pattern has a single way to match, so no backtracking is needed. */
  function MatchAt(s: string, i: nat): (r: Option<string>)
    ensures r.Some? ==> r.value != [] && forall k :: 0 <= k < |r.value| ==> IsAmountChar(r.value[k])
  {
    if !(i + |Marker| <= |s| && Lower(s[i..i + |Marker|]) == Marker) then None
    else
      var j := i + |Marker|;
      var j1 := if j < |s| && s[j] == ':' then j + 1 else j;
      var j2 := SkipSpaces(s, j1);
      if !(j2 + 2 <= |s| && LowerChar(s[j2]) == 'r' && s[j2 + 1] == '$') then None
      else
        var j3 := SkipSpaces(s, j2 + 2);
        var e := RunEnd(s, j3);
        if e == j3 then None else Some(s[j3..e])
  }

  /** The first result among `f(from)`, ..., `f(last)` that is present: the scan behind
      `match`, which tries each position from left to right. */
  function FirstSome<T>(f: nat -> Option<T>, from: nat, last: nat): Option<T>
    requires from <= last
    decreases last - from
  {
    if f(from).Some? then f(from)
    else if from == last then None
    else FirstSome(f, from + 1, last)
  }

  /** The scan finds nothing exactly when every position gives nothing; what it finds is the
      result at some position with nothing before it. */
  lemma {:induction false} FirstSomeSpec<T>(f: nat -> Option<T>, from: nat, last: nat)
    requires from <= last
    ensures FirstSome(f, from, last).None? <==> forall i :: from <= i <= last ==> f(i).None?
    ensures FirstSome(f, from, last).Some? ==>
              exists i :: from <= i <= last && f(i) == FirstSome(f, from, last)
                          && forall k :: from <= k < i ==> f(k).None?
    decreases last - from
  {
    if f(from).None? && from < last {
      FirstSomeSpec(f, from + 1, last);
      var r := FirstSome(f, from + 1, last);
      if r.Some? {
        var i :| from + 1 <= i <= last && f(i) == r && forall k :: from + 1 <= k < i ==> f(k).None?;
        assert forall k :: from <= k < i ==> f(k).None?;
      }
    }
  }

  /** The scan returns the result at the first position that has one. */
  lemma {:induction false} FirstSomeAt<T>(f: nat -> Option<T>, from: nat, last: nat, i: nat)
    requires from <= i <= last && f(i).Some?
    requires forall k :: from <= k < i ==> f(k).None?
    ensures FirstSome(f, from, last) == f(i)
    decreases i - from
  {
    if from < i {
      FirstSomeAt(f, from + 1, last, i);
    }
  }

  /** `s.match(pattern)`: the capture of the leftmost match at or after `from`. */
  function FirstMatch(s: string, from: nat): Option<string>
    requires from <= |s|
  {
    FirstSome((i: nat) => MatchAt(s, i), from, |s|)
  }

  predicate NotDot(c: char)
  {
    c != '.'
  }

  /** The marker as the estimate's prompt asks the model to write it. */
  const Label: string := "Valor Total Estimado: R$ "

  lemma LabelLower()
    ensures Lower(Label[..|Marker|]) == Marker
  {
    var l := Label[..|Marker|];
    assert l == "Valor Total Estimado";
    assert LowerChar('V') == 'v' && LowerChar('T') == 't' && LowerChar('E') == 'e';
    assert Lower(l) == Marker;
  }

  /** Right after the label as the prompt spells it, the pattern captures the whole run of
      digits, dots and commas that follows. */
  lemma MatchAfterLabel(pre: string, run: string, post: string)
    requires run != [] && forall k :: 0 <= k < |run| ==> IsAmountChar(run[k])
    requires post == [] || !IsAmountChar(post[0])
    ensures MatchAt(pre + Label + run + post, |pre|) == Some(run)
  {
    var s := pre + Label + run + post;
    var i := |pre|;
    assert s[i..i + |Marker|] == Label[..|Marker|];
    LabelLower();
    assert s[i + 20] == ':' && s[i + 21] == ' ' && s[i + 22] == 'R' && s[i + 23] == '$' && s[i + 24] == ' ';
    assert SkipSpaces(s, i + 21) == i + 22;
    assert SkipSpaces(s, i + 24) == i + 25 by {
      assert s[i + 25] == run[0];
      assert !IsSpace(run[0]);
    }
    var e := RunEnd(s, i + 25);
    assert e == i + 25 + |run| by {
      RunEndAt(s, i + 25, |run|);
    }
    assert s[i + 25..e] == run;
  }

  lemma {:induction false} RunEndAt(s: string, j: nat, n: nat)
    requires j + n <= |s|
    requires forall k :: j <= k < j + n ==> IsAmountChar(s[k])
    requires j + n == |s| || !IsAmountChar(s[j + n])
    ensures RunEnd(s, j) == j + n
    decreases n
  {
    if n > 0 {
      RunEndAt(s, j + 1, n - 1);
    }
  }

  /** An estimate whose text holds the label once, followed by a Brazilian amount `a,b`, with no
      earlier match of the pattern, has the total `a.b`. */
  lemma TotalAfterLabel(pre: string, a: string, b: string, post: string)
    requires AllDigits(a) && AllDigits(b) && a != []
    requires post == [] || !IsAmountChar(post[0])
    requires forall i :: 0 <= i < |pre| ==> MatchAt(pre + Label + (a + "," + b) + post, i).None?
    ensures TotalAmount(pre + Label + (a + "," + b) + post) == DecimalValue(a, b)
  {
    var run := a + "," + b;
    var s := pre + Label + run + post;
    assert forall k :: 0 <= k < |run| ==> IsAmountChar(run[k]) by {
      forall k | 0 <= k < |run| ensures IsAmountChar(run[k]) {
        if k < |a| { assert run[k] == a[k]; }
        else if k > |a| { assert run[k] == b[k - |a| - 1]; }
      }
    }
    MatchAfterLabel(pre, run, post);
    FirstMatchAt(s, |pre|);
    CommaDecimal(a, b);
  }

  /** When the first match starts at `i`, `match` returns its capture. */
  lemma FirstMatchAt(s: string, i: nat)
    requires i <= |s| && MatchAt(s, i).Some?
    requires forall k :: 0 <= k < i ==> MatchAt(s, k).None?
    ensures FirstMatch(s, 0) == MatchAt(s, i)
  {
    var f: nat -> Option<string> := (k: nat) => MatchAt(s, k);
    FirstSomeAt(f, 0, |s|, i);
  }

  /** `replace(/\./g, '')`. */
  function RemoveDots(s: string): string
  {
    Filter(s, NotDot)
  }

  /** `replace(',', '.')`: only the first comma becomes a decimal point. */
  function ReplaceFirstComma(s: string): (r: string)
    ensures |r| == |s|
  {
    if s == [] then []
    else if s[0] == ',' then ['.'] + s[1..]
    else [s[0]] + ReplaceFirstComma(s[1..])
  }

  function Clean(run: string): string
  {
    ReplaceFirstComma(RemoveDots(run))
  }

  function Pow10(n: nat): (r: nat)
    ensures r >= 1
  {
    if n == 0 then 1 else 10 * Pow10(n - 1)
  }

  /** `parseFloat` on text made of digits, dots and commas: the longest prefix of the form
      digits, optionally a point and more digits, with at least one digit; nothing (NaN)
      when there is no digit before the first other character. */
  function ParseDecimal(t: string): Option<real>
  {
    var whole := LeadingDigits(t);
    var rest := t[|whole|..];
    var frac := if rest != [] && rest[0] == '.' then LeadingDigits(rest[1..]) else [];
    if whole == [] && frac == [] then None
    else Some(DecimalValue(whole, frac))
  }

  /** The number written with the digits `whole`, a point and the digits `frac`. */
  function DecimalValue(whole: string, frac: string): (v: real)
    requires AllDigits(whole) && AllDigits(frac)
    ensures v >= 0.0
  {
    var p := Pow10(|frac|) as real;
    assert NumberValue(frac) as real / p >= 0.0;
    NumberValue(whole) as real + NumberValue(frac) as real / p
  }

  /** The total read from an estimate: the number after the marker, or 0 when there is no
      match or the number does not parse. */
  function TotalAmount(text: string): real
  {
    match FirstMatch(text, 0)
    case None => 0.0
    case Some(run) =>
      match ParseDecimal(Clean(run))
      case None => 0.0
      case Some(v) => v
  }

  /** The total is never negative, and it is 0 whenever the text has no match of the pattern. */
  lemma TotalAmountSpec(text: string)
    ensures TotalAmount(text) >= 0.0
    ensures (forall i :: 0 <= i <= |text| ==> MatchAt(text, i).None?) ==> TotalAmount(text) == 0.0
  {
    FirstSomeSpec((i: nat) => MatchAt(text, i), 0, |text|);
  }

  /** Thousands separators do not matter: a dot anywhere in the run is dropped. */
  lemma DotsIgnored(a: string, b: string)
    ensures Clean(a + "." + b) == Clean(a + b)
  {
    FilterAppend(a + ".", b, NotDot);
    FilterAppend(a, ".", NotDot);
    FilterAppend(a, b, NotDot);
    DotFiltered();
    assert RemoveDots(a + ".") == RemoveDots(a) + [];
    assert RemoveDots(a + "." + b) == RemoveDots(a) + RemoveDots(b);
  }

  lemma DotFiltered()
    ensures RemoveDots(".") == []
  {
    assert "."[..0] == [];
  }

  lemma {:induction false} ReplaceFirstCommaDigits(a: string, b: string)
    requires AllDigits(a)
    ensures ReplaceFirstComma(a + "," + b) == a + "." + b
  {
    if a != [] {
      assert (a + "," + b)[1..] == a[1..] + "," + b;
      ReplaceFirstCommaDigits(a[1..], b);
    }
  }

  /** A Brazilian amount without thousands separators, `a,b`, reads as `a` units and the
      decimal fraction `b`. */
  lemma CommaDecimal(a: string, b: string)
    requires AllDigits(a) && AllDigits(b) && a != []
    ensures ParseDecimal(Clean(a + "," + b)) == Some(DecimalValue(a, b))
  {
    CleanCommaDigits(a, b);
    PointDecimal(a, b);
  }

  lemma CleanCommaDigits(a: string, b: string)
    requires AllDigits(a) && AllDigits(b)
    ensures Clean(a + "," + b) == a + "." + b
  {
    var s := a + "," + b;
    assert forall k :: 0 <= k < |s| ==> NotDot(s[k]);
    FilterAll(s, NotDot);
    ReplaceFirstCommaDigits(a, b);
  }

  lemma PointDecimal(a: string, b: string)
    requires AllDigits(a) && AllDigits(b) && a != []
    ensures ParseDecimal(a + "." + b) == Some(DecimalValue(a, b))
  {
    var t := a + "." + b;
    assert t == a + ("." + b);
    LeadingDigitsAppend(a, "." + b);
    var whole := LeadingDigits(t);
    var rest := t[|whole|..];
    assert rest == "." + b;
    assert rest != [] && rest[0] == '.';
    assert rest[1..] == b;
    LeadingDigitsAppend(b, []);
    assert b + [] == b;
    assert LeadingDigits(rest[1..]) == b;
  }

  predicate LongEnough(line: string)
  {
    |Trim(line)| > 3
  }

  /** `slice(0, 4)`. */
  function Take4<T>(s: seq<T>): (r: seq<T>)
    ensures |r| <= 4 && |r| <= |s| && r == s[..|r|]
    ensures |r| < 4 ==> r == s
  {
    if |s| <= 4 then s else s[..4]
  }

  const FallbackQuestions: seq<string> := ["Quais são os principais custos?", "Para quando você planeja?", "Existem detalhes extras?"]

  /** `askClarifyingQuestions` given the reply's text, or nothing when the call failed (a
      reply without text reads as the empty string). */
  function ClarifyingQuestions(reply: Option<string>): seq<string>
  {
    match reply
    case None => FallbackQuestions
    case Some(text) => Take4(Filter(Split(text, '\n'), LongEnough))
  }

  /** At most four questions, each a line of the reply (no line break inside) longer than three
      characters once trimmed, in the reply's order; fewer than four only when the reply has no
      more such lines; and the three fixed questions when the call failed. */
  lemma ClarifyingQuestionsSpec(reply: Option<string>)
    ensures reply.None? ==> ClarifyingQuestions(reply) == FallbackQuestions
    ensures reply.Some? ==>
      var r := ClarifyingQuestions(reply);
      var lines := Split(reply.value, '\n');
      && |r| <= 4
      && (forall i :: 0 <= i < |r| ==> r[i] in lines && '\n' !in r[i] && |Trim(r[i])| > 3)
      && Subsequence(r, lines)
      && (|r| < 4 ==> r == Filter(lines, LongEnough))
  {
    if reply.Some? {
      var lines := Split(reply.value, '\n');
      var f := Filter(lines, LongEnough);
      var r := Take4(f);
      FilterSubsequence(lines, LongEnough);
      PrefixSubsequence(r, f, lines);
      forall i | 0 <= i < |r| ensures r[i] in lines && '\n' !in r[i] && |Trim(r[i])| > 3 {
        assert r[i] == f[i];
        FilterIndex(lines, LongEnough, i);
        var k :| 0 <= k < |lines| && lines[k] == f[i];
      }
    }
  }

  /** A prefix of a subsequence is a subsequence. */
  lemma {:induction false} PrefixSubsequence<T>(r: seq<T>, f: seq<T>, s: seq<T>)
    requires |r| <= |f| && r == f[..|r|] && Subsequence(f, s)
    ensures Subsequence(r, s)
    decreases |f|
  {
    if |r| < |f| {
      var f' := f[..|f| - 1];
      assert r == f'[..|r|];
      SubsequenceDropLast(f, s);
      PrefixSubsequence(r, f', s);
    } else {
      assert f[..|f|] == f;
    }
  }

  /** Leaving out the last element of a subsequence keeps a subsequence. */
  lemma {:induction false} SubsequenceDropLast<T>(a: seq<T>, b: seq<T>)
    requires a != [] && Subsequence(a, b)
    ensures Subsequence(a[..|a| - 1], b)
    decreases |b|
  {
    var a' := a[..|a| - 1];
    if a[|a| - 1] == b[|b| - 1] && Subsequence(a', b[..|b| - 1]) {
      SubsequenceDropLastOfB(a', b);
    } else {
      SubsequenceDropLast(a, b[..|b| - 1]);
      SubsequenceDropLastOfB(a', b);
    }
  }

  /** A subsequence of a sequence without its last element is a subsequence of the whole. */
  lemma SubsequenceDropLastOfB<T>(a: seq<T>, b: seq<T>)
    requires b != [] && Subsequence(a, b[..|b| - 1])
    ensures Subsequence(a, b)
  {
  }

  /** Who wrote a message, as the model's API names it. */
  datatype Role = UserRole | ModelRole

  datatype Content = Content(role: Role, text: string)

  function ToContent(m: ChatMessage): Content
  {
    Content(if m.sender == User then UserRole else ModelRole, m.text)
  }

  const HistoryLimit: nat := 10

  /** `history.slice(-10).map(...)`: the last ten messages, the user's as 'user' and every
      other as 'model', texts unchanged. */
  function GeminiHistory(history: seq<ChatMessage>): (r: seq<Content>)
    ensures |r| == if |history| < HistoryLimit then |history| else HistoryLimit
    ensures forall i :: 0 <= i < |r| ==>
              var m := history[|history| - |r| + i];
              r[i].text == m.text && (r[i].role == UserRole <==> m.sender == User)
  {
    var start := if |history| < HistoryLimit then 0 else |history| - HistoryLimit;
    var r := seq(|history| - start, i requires 0 <= i < |history| - start => ToContent(history[start + i]));
    assert forall i :: 0 <= i < |r| ==> r[i] == ToContent(history[start + i]);
    r
  }

  /** `type.split(';')[0]`, with 'audio/x-m4a' renamed 'audio/mp4'. */
  function CleanMime(t: string): string
  {
    var m := Split(t, ';')[0];
    if m == "audio/x-m4a" then "audio/mp4" else m
  }

  /** The cleaned type has no parameters: it is the text before the first ';' (or the whole type
      when there is none), except that 'audio/x-m4a' becomes 'audio/mp4'. */
  lemma CleanMimeSpec(t: string)
    ensures ';' !in CleanMime(t)
    ensures CleanMime(t) == "audio/mp4" || StartsWith(t, CleanMime(t))
    ensures ';' !in t && t != "audio/x-m4a" ==> CleanMime(t) == t
    ensures StartsWith(t, "audio/x-m4a") && (|t| == 11 || t[11] == ';') ==> CleanMime(t) == "audio/mp4"
  {
    SplitFirst(t, ';');
    assert "audio/mp4" == ['a', 'u', 'd', 'i', 'o', '/', 'm', 'p', '4'];
    if ';' !in t {
      SplitBeforeSeparator(t, [], ';');
      assert t + [] == t;
    }
    if StartsWith(t, "audio/x-m4a") && (|t| == 11 || t[11] == ';') {
      assert t == "audio/x-m4a" + t[11..];
      SplitBeforeSeparator("audio/x-m4a", t[11..], ';');
    }
  }

  /** What `estimateGoalCost` hands back: the model's text, the total read from it and the
      sources the search cited. */
  datatype Estimate = Estimate(breakdown: string, totalAmount: real, sources: seq<string>)

  const EstimateError: string := "Erro na estimativa da IA."

  /** `estimateGoalCost` given the reply's text and sources, or nothing when the call failed. */
  function EstimateFrom(reply: Option<(string, seq<string>)>): (e: Estimate)
    ensures e.totalAmount >= 0.0
  {
    match reply
    case None => Estimate(EstimateError, 0.0, [])
    case Some((text, sources)) =>
      TotalAmountSpec(text);
      Estimate(text, TotalAmount(text), sources)
  }
}
