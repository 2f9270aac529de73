/** src/llm.ts: reading the model's replies. The important-fields reply holds one
    `field: reason` pair per line; the sanity reply holds a yes/no verdict and a reason
    on two non-blank lines. The requests to the model are not part of this model. */
module Llm {
  import opened Wrappers
  import opened Seqs
  import opened Strings

  // ---------------------------------------------------------------------------
  // Important fields (src/llm.ts:74-84)

  /** One reply line: `line.split(":").map((part) => part.trim())`, keeping the first
      two parts when both are non-empty. A line without a colon has no second part,
      which is `undefined` and so counts as empty. */
  function LinePair(line: string): (r: Option<(string, string)>)
  {
    var parts := Split(line, ':');
    var field := Trim(parts[0]);
    var reason := if |parts| >= 2 then Trim(parts[1]) else "";
    if field != "" && reason != "" then Some((field, reason)) else None
  }

  /** The pairs read from the lines, in line order, at most one per line. */
  function Pairs(lines: seq<string>): seq<(string, string)>
    decreases |lines|
  {
    if lines == [] then [] else Pairs(lines[..|lines| - 1]) + LineOut(lines[|lines| - 1])
  }

  /** What one line contributes: its pair, or nothing. */
  function LineOut(line: string): seq<(string, string)> {
    match LinePair(line)
    case Some(p) => [p]
    case None => []
  }

  /** The loop of src/llm.ts:74-84 over the reply's lines. */
  method ParseImportantFields(response: string) returns (result: seq<(string, string)>)
    ensures result == Pairs(Split(response, '\n'))
  {
    var lines := Split(response, '\n');
    result := [];
    for i := 0 to |lines|
      invariant result == Pairs(lines[..i])
    {
      PairsSnoc(lines, i);
      var parts := Split(lines[i], ':');
      var field := Trim(parts[0]);
      var reason := if |parts| >= 2 then Trim(parts[1]) else "";
      if field != "" && reason != "" {
        result := result + [(field, reason)];
      }
    }
    assert lines[..|lines|] == lines;
  }

  lemma PairsSnoc(lines: seq<string>, i: int)
    requires 0 <= i < |lines|
    ensures Pairs(lines[..i + 1]) == Pairs(lines[..i]) + LineOut(lines[i])
  {
    assert lines[..i + 1][..i] == lines[..i];
  }

  /** Trimming keeps only characters of the original text. */
  lemma TrimInfix(s: string, c: char)
    requires c !in s
    ensures c !in Trim(s)
  {
    TrimSpec(s);
    var i :| (0 <= i <= |s| - |Trim(s)| && Trim(s) == s[i..i + |Trim(s)|]
              && AllWhitespace(s[..i]) && AllWhitespace(s[i + |Trim(s)|..]));
    assert forall k :: 0 <= k < |Trim(s)| ==> Trim(s)[k] == s[i + k];
  }

  /** A pair is a non-empty trimmed field and a non-empty trimmed reason, neither of
      which holds a colon or a line break. */
  predicate GoodPair(p: (string, string)) {
    && p.0 != "" && p.1 != ""
    && Trimmed(p.0) && Trimmed(p.1)
    && ':' !in p.0 && ':' !in p.1
    && '\n' !in p.0 && '\n' !in p.1
  }

  lemma LinePairGood(line: string)
    requires '\n' !in line
    ensures LinePair(line).Some? ==> GoodPair(LinePair(line).value)
  {
    var parts := Split(line, ':');
    if LinePair(line).Some? {
      JoinSplit(line, ':');
      assert '\n' !in parts[0] && '\n' !in parts[1] by {
        SplitPartsIn(line, ':', '\n');
      }
      TrimSpec(parts[0]);
      TrimSpec(parts[1]);
      TrimInfix(parts[0], ':');
      TrimInfix(parts[1], ':');
      TrimInfix(parts[0], '\n');
      TrimInfix(parts[1], '\n');
    }
  }

  /** A character absent from a text is absent from each of its pieces. */
  lemma {:induction false} SplitPartsIn(s: string, sep: char, c: char)
    requires c !in s
    ensures forall i :: 0 <= i < |Split(s, sep)| ==> c !in Split(s, sep)[i]
    decreases |s|
  {
    if |s| > 0 {
      SplitPartsIn(s[1..], sep, c);
    }
  }

  /** Every pair read from a reply is good, and there is at most one pair per line. */
  lemma {:induction false} PairsGood(lines: seq<string>)
    requires forall i :: 0 <= i < |lines| ==> '\n' !in lines[i]
    ensures |Pairs(lines)| <= |lines|
    ensures forall p :: p in Pairs(lines) ==> GoodPair(p)
    decreases |lines|
  {
    if lines != [] {
      var n := |lines| - 1;
      PairsGood(lines[..n]);
      LinePairGood(lines[n]);
    }
  }

  /** The pairs of a reply are those of its lines: `ParseImportantFields` returns only
      good pairs, at most one per line. */
  lemma ImportantFieldsGood(response: string)
    ensures |Pairs(Split(response, '\n'))| <= |Split(response, '\n')|
    ensures forall p :: p in Pairs(Split(response, '\n')) ==> GoodPair(p)
  {
    PairsGood(Split(response, '\n'));
  }

  /** Lines are read independently and in order. */
  lemma {:induction false} PairsAppend(a: seq<string>, b: seq<string>)
    ensures Pairs(a + b) == Pairs(a) + Pairs(b)
    decreases |b|
  {
    if b == [] {
      assert a + b == a;
    } else {
      var n := |b| - 1;
      assert (a + b)[..|a + b| - 1] == a + b[..n];
      assert (a + b)[|a + b| - 1] == b[n];
      PairsAppend(a, b[..n]);
    }
  }

  /** The reason is only the text between the first and the second colon:
      "a: b: c" reads as ("a", "b"). */
  lemma ReasonStopsAtColon(a: string, b: string, c: string)
    requires ':' !in a && ':' !in b
    ensures LinePair(a + ":" + b + ":" + c) == LinePair(a + ":" + b)
  {
    SplitCons(a, ':', b + ":" + c);
    assert a + ":" + b + ":" + c == a + [':'] + (b + ":" + c);
    SplitCons(b, ':', c);
    SplitCons(a, ':', b);
    SplitNoSep(b, ':');
  }

  /** Leading blanks before a trimmed, non-blank text are cut. */
  lemma TrimSpaceBefore(r: string)
    requires Trimmed(r) && r != ""
    ensures Trim(" " + r) == r
  {
    assert (" " + r)[1..] == r;
    TrimmedFixed(r);
  }

  /** `${field}: ${reason}`, as src/engine.ts:147 writes a pair back. */
  function Format(p: (string, string)): string {
    p.0 + ": " + p.1
  }

  lemma LinePairFormat(p: (string, string))
    requires GoodPair(p)
    ensures LinePair(Format(p)) == Some(p)
  {
    assert Format(p) == p.0 + [':'] + (" " + p.1);
    SplitCons(p.0, ':', " " + p.1);
    SplitNoSep(" " + p.1, ':');
    TrimmedFixed(p.0);
    TrimSpaceBefore(p.1);
  }

  function FormatAll(pairs: seq<(string, string)>): seq<string> {
    seq(|pairs|, i requires 0 <= i < |pairs| => Format(pairs[i]))
  }

  lemma {:induction false} PairsFormatted(pairs: seq<(string, string)>)
    requires forall i :: 0 <= i < |pairs| ==> GoodPair(pairs[i])
    ensures Pairs(FormatAll(pairs)) == pairs
    decreases |pairs|
  {
    if pairs != [] {
      var n := |pairs| - 1;
      var lines := FormatAll(pairs);
      FormatAllPrefix(pairs, n);
      PairsSnoc(lines, n);
      assert lines[..n + 1] == lines;
      PairsFormatted(pairs[..n]);
      LineOutFormat(pairs[n]);
      SnocLast(pairs);
    }
  }

  lemma FormatAllPrefix(pairs: seq<(string, string)>, n: int)
    requires 0 <= n < |pairs|
    ensures FormatAll(pairs)[..n] == FormatAll(pairs[..n])
    ensures FormatAll(pairs)[n] == Format(pairs[n])
  {
  }

  lemma LineOutFormat(p: (string, string))
    requires GoodPair(p)
    ensures LineOut(Format(p)) == [p]
  {
    LinePairFormat(p);
  }

  /** Reading back the pairs written one per line as `field: reason` gives the same
      pairs, in order. */
  lemma ImportantFieldsRoundTrip(pairs: seq<(string, string)>)
    requires forall i :: 0 <= i < |pairs| ==> GoodPair(pairs[i])
    ensures Pairs(Split(Join(FormatAll(pairs), "\n"), '\n')) == pairs
  {
    var lines := FormatAll(pairs);
    if pairs == [] {
      assert Split(Join(lines, "\n"), '\n') == [""];
      assert Pairs([""]) == Pairs([][..0]) + [];
    } else {
      forall i | 0 <= i < |lines| ensures '\n' !in lines[i] {
        assert lines[i] == pairs[i].0 + ": " + pairs[i].1;
      }
      SplitJoin(lines, '\n');
      PairsFormatted(pairs);
    }
  }

  // ---------------------------------------------------------------------------
  // Sanity check (src/llm.ts:106-114)

  datatype Sanity = Sanity(isSane: bool, reason: string)

  /** `lines.filter((line) => line.trim() !== "")` */
  function NonBlank(lines: seq<string>): seq<string>
    decreases |lines|
  {
    if lines == [] then []
    else (if Trim(lines[0]) != "" then [lines[0]] else []) + NonBlank(lines[1..])
  }

  /** The kept lines are lines of the input, none of them blank. */
  lemma {:induction false} NonBlankSpec(lines: seq<string>)
    ensures forall i :: 0 <= i < |NonBlank(lines)| ==>
              NonBlank(lines)[i] in lines && Trim(NonBlank(lines)[i]) != ""
    ensures forall l :: l in lines && Trim(l) != "" ==> l in NonBlank(lines)
    decreases |lines|
  {
    if lines != [] {
      NonBlankSpec(lines[1..]);
      var head := if Trim(lines[0]) != "" then [lines[0]] else [];
      assert NonBlank(lines) == head + NonBlank(lines[1..]);
      forall i | 0 <= i < |NonBlank(lines)|
        ensures NonBlank(lines)[i] in lines && Trim(NonBlank(lines)[i]) != ""
      {
        if i >= |head| {
          assert NonBlank(lines)[i] == NonBlank(lines[1..])[i - |head|];
          assert NonBlank(lines)[i] in lines[1..];
        }
      }
      forall l | l in lines && Trim(l) != "" ensures l in NonBlank(lines) {
        if l != lines[0] {
          assert l in lines[1..];
        }
      }
    }
  }

  /** A single line is kept exactly when it is not blank; with NonBlankAppend
      this fixes the kept lines and their order. */
  lemma NonBlankSingle(l: string)
    ensures NonBlank([l]) == if Trim(l) != "" then [l] else []
  {
    assert [l][1..] == [];
  }

  /** The verdict and the reason of a sanity reply; any number of non-blank lines
      other than two is an error. */
  function ParseSanityReply(response: string): (r: Result<Sanity>)
    ensures r.Err? <==> |NonBlank(Split(response, '\n'))| != 2
    ensures r.Ok? ==>
              var verdict := Trim(NonBlank(Split(response, '\n'))[0]);
              (r.value.isSane <==> |verdict| == 3 && verdict[0] in "yY" && verdict[1] in "eE" && verdict[2] in "sS")
    ensures r.Ok? ==> r.value.reason != "" && Trimmed(r.value.reason) && '\n' !in r.value.reason
    ensures r.Ok? ==> r.value.reason == Trim(NonBlank(Split(response, '\n'))[1])
  {
    var lines := NonBlank(Split(response, '\n'));
    if |lines| != 2 then Err("Invalid response from LLM")
    else
      LowerIsYes(Trim(lines[0]));
      TrimSpec(lines[1]);
      NonBlankSpec(Split(response, '\n'));
      NoCharInTrim(lines[1], Split(response, '\n'));
      Ok(Sanity(ToLower(Trim(lines[0])) == "yes", Trim(lines[1])))
  }

  lemma NoCharInTrim(line: string, lines: seq<string>)
    requires line in lines && forall i :: 0 <= i < |lines| ==> '\n' !in lines[i]
    ensures '\n' !in Trim(line)
  {
    TrimInfix(line, '\n');
  }

  lemma {:induction false} NonBlankAppend(a: seq<string>, b: seq<string>)
    ensures NonBlank(a + b) == NonBlank(a) + NonBlank(b)
    decreases |a|
  {
    if a == [] {
      assert a + b == b;
    } else {
      assert (a + b)[0] == a[0];
      assert (a + b)[1..] == a[1..] + b;
      NonBlankAppend(a[1..], b);
    }
  }

  /** A trailing blank line changes nothing. */
  lemma BlankLineIgnored(response: string, blank: string)
    requires AllWhitespace(blank) && '\n' !in blank
    ensures ParseSanityReply(response + "\n" + blank) == ParseSanityReply(response)
  {
    SplitSnoc(response, '\n', blank);
    TrimEmptyIffBlank(blank);
    NonBlankAppend(Split(response, '\n'), [blank]);
    assert NonBlank([blank]) == [];
    assert response + "\n" + blank == response + ['\n'] + blank;
  }

  /** A verdict line and a reason line, as the request asks for, read back as the
      verdict and the trimmed reason. */
  lemma SanityRoundTrip(verdict: string, reason: string)
    requires '\n' !in verdict && '\n' !in reason
    requires !AllWhitespace(verdict) && !AllWhitespace(reason)
    ensures ParseSanityReply(verdict + "\n" + reason) == Ok(Sanity(ToLower(Trim(verdict)) == "yes", Trim(reason)))
  {
    assert verdict + "\n" + reason == verdict + ['\n'] + reason;
    SplitCons(verdict, '\n', reason);
    SplitNoSep(reason, '\n');
    TrimEmptyIffBlank(verdict);
    TrimEmptyIffBlank(reason);
    assert NonBlank([verdict, reason]) == [verdict, reason] by {
      assert [verdict, reason][1..] == [reason];
      assert [reason][1..] == [];
      assert NonBlank([reason]) == [reason] + NonBlank([]);
    }
  }

  /** The reply the request asks for when the query is sane. */
  lemma SaneReply()
    ensures ParseSanityReply("yes" + "\n" + "n/a") == Ok(Sanity(true, "n/a"))
  {
    var verdict, reason := "yes", "n/a";
    assert !IsWhitespace(verdict[0]) && !IsWhitespace(reason[0]);
    SanityRoundTrip(verdict, reason);
    TrimmedFixed(verdict);
    TrimmedFixed(reason);
  }

  /** A refusal in another case mix reads as not sane, with its reason. */
  lemma InsaneReply()
    ensures ParseSanityReply("No" + "\n" + "no data") == Ok(Sanity(false, "no data"))
  {
    var verdict, reason := "No", "no data";
    assert !IsWhitespace(verdict[0]) && !IsWhitespace(reason[0]);
    SanityRoundTrip(verdict, reason);
    TrimmedFixed(verdict);
    TrimmedFixed(reason);
    LowerIsYes(verdict);
  }
}
