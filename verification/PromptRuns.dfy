/** What a person's reply comes to, over every reply and every sequence of calls. */
module PromptRuns {
  import opened Wrappers
  import opened PyText
  import opened PyInt
  import opened Prompts

  // ---------- The list shown and the number replied ----------

  // The lines that rows come to, one row behind another.
  function LinesOf(rows: seq<string>): seq<string> {
    if rows == [] then [] else LinesOf(rows[..|rows| - 1]) + Split(rows[|rows| - 1], '\n')
  }

  lemma {:induction false} LinesOfJoin(rows: seq<string>)
    requires rows != []
    ensures Split(Join(rows, '\n'), '\n') == LinesOf(rows)
    decreases |rows|
  {
    var n := |rows| - 1;
    if n == 0 {
      assert rows[..0] == [] && [] + Split(rows[0], '\n') == Split(rows[0], '\n');
    } else {
      LinesOfJoin(rows[..n]);
      JoinLast(rows[..n], rows[n]);
      assert rows == rows[..n] + [rows[n]];
      SplitAtSeparator(Join(rows[..n], '\n'), '\n', rows[n]);
    }
  }

  lemma {:induction false} JoinLast(rows: seq<string>, last: string)
    requires rows != []
    ensures Join(rows + [last], '\n') == Join(rows, '\n') + ['\n'] + last
  {
    if |rows| == 1 {
      assert (rows + [last])[1..] == [last];
    } else {
      assert (rows + [last])[1..] == rows[1..] + [last];
      JoinLast(rows[1..], last);
    }
  }

  lemma {:induction false} LinesOfMore(rows: seq<string>, n: nat)
    requires n < |rows|
    ensures LinesOf(rows[..n]) + Split(rows[n], '\n') <= LinesOf(rows)
    decreases |rows|
  {
    var m := |rows| - 1;
    if n < m {
      LinesOfMore(rows[..m], n);
      assert rows[..m][..n] == rows[..n];
    } else {
      assert rows[..n] == rows[..m];
    }
  }

  lemma NumberSelects(p: Prompt, n: nat, text: string, lower: string -> string)
    requires p.kind in {ChoiceSingle, Approval}
    requires 1 <= n <= |Offered(p)| && ParseInt(Strip(text)) == Some(n)
    ensures ParseReply(p, text, lower) == Some(Reply(Some([Offered(p)[n - 1].key]), None))
  {
    StripOnce(text);
  }

  lemma {:induction false} StripOnce(text: string)
    ensures Strip(Strip(text)) == Strip(text)
  {
    var s := LStrip(text);
    var t := RStrip(s);
    if t != "" {
      assert t[0] == s[0];
    }
    StripKeeps(t);
  }

  // A caption's first line stands behind its number, the rest below.
  lemma {:induction false} SplitBehind(a: string, b: string, c: char)
    requires c !in a
    ensures Split(a + b, c) == [a + Split(b, c)[0]] + Split(b, c)[1..]
  {
    var later := Split(b, c);
    if a == "" {
      assert a + b == b && a + later[0] == later[0];
    } else {
      var t := a[1..];
      assert (a + b)[0] == a[0] && (a + b)[1..] == t + b;
      SplitBehind(t, b, c);
      assert [a[0]] + (t + later[0]) == a + later[0];
      assert ([t + later[0]] + later[1..])[1..] == later[1..];
    }
  }

  function Entry(options: seq<Choice>, n: nat): seq<string>
    requires 1 <= n <= |options|
  {
    Split(options[n - 1].caption, '\n')
  }

  lemma EntryLines(options: seq<Choice>, n: nat)
    requires 1 <= n <= |options|
    ensures Split(Numbered(options)[n - 1], '\n') == [Str(n) + ". " + Entry(options, n)[0]] + Entry(options, n)[1..]
  {
    NumberReadsBack(n);
    SplitBehind(Str(n) + ". ", options[n - 1].caption, '\n');
  }

  // The lines above entry n.
  function Above(p: Prompt, n: nat): nat
    requires 1 <= n <= |Offered(p)|
  {
    |Split(Header(p), '\n')| + |LinesOf(Numbered(Offered(p))[..n - 1])|
  }

  lemma RenderedLines(head: string, rows: seq<string>, foot: string)
    requires rows != [] && '\n' !in foot
    ensures Split(head + "\n" + Join(rows, '\n') + "\n" + foot, '\n') == Split(head, '\n') + LinesOf(rows) + [foot]
  {
    var list := Join(rows, '\n');
    LinesOfJoin(rows);
    SplitWhole(foot, '\n');
    SplitAtSeparator(head, '\n', list);
    SplitAtSeparator(head + "\n" + list, '\n', foot);
  }

  // The rendering is the header, one entry per option in order, and the footer.
  lemma RenderingIsHeaderEntriesFooter(p: Prompt)
    requires p.kind in {ChoiceSingle, ChoiceMulti, Approval} && Offered(p) != []
    ensures Split(Render(p), '\n') == Split(Header(p), '\n') + LinesOf(Numbered(Offered(p))) + [Footer(p.kind)]
  {
    RenderedLines(Header(p), Numbered(Offered(p)), Footer(p.kind));
  }

  // The question's lines, and the body's when it is not blank.
  function HeaderLines(question: string, body: string): seq<string> {
    if Strip(body) == "" then Split(question, '\n') else Split(question, '\n') + Split(Strip(body), '\n')
  }

  lemma HeaderSplits(p: Prompt)
    ensures Split(Header(p), '\n') == HeaderLines(p.question, p.body)
  {
    if Strip(p.body) != "" { SplitAtSeparator(p.question, '\n', Strip(p.body)); }
  }

  // Whatever the kind: the question stands first, then the body, then the entries if
  // there are options to choose from, and last how to reply, but for a notice.
  lemma RenderingShowsQuestionAndBody(p: Prompt)
    requires p.kind in {ChoiceSingle, ChoiceMulti, Approval} ==> Offered(p) != []
    ensures Split(Render(p), '\n') ==
            HeaderLines(p.question, p.body) +
            (match p.kind
             case Notice => []
             case FreeText => ["Reply with your answer."]
             case ChoiceMulti => LinesOf(Numbered(Offered(p))) + ["Reply with numbers separated by commas."]
             case _ => LinesOf(Numbered(Offered(p))) + ["Reply with the number."])
  {
    HeaderSplits(p);
    match p.kind {
      case Notice =>
      case FreeText =>
        SplitAtSeparator(Header(p), '\n', Footer(FreeText));
        SplitWhole(Footer(FreeText), '\n');
      case _ => RenderingIsHeaderEntriesFooter(p);
    }
  }

  lemma TwoRows(a: string, b: string)
    requires '\n' !in a && '\n' !in b
    ensures LinesOf([a, b]) == [a, b]
  {
    var rows := [a, b];
    assert rows[..1] == [a] && [a][..0] == [];
    SplitWhole(a, '\n');
    SplitWhole(b, '\n');
    assert LinesOf([a]) == [] + [a];
    assert LinesOf(rows) == LinesOf([a]) + [b];
  }

  lemma FirstNumbers()
    ensures Str(1) == "1" && Str(2) == "2"
  {
  }

  lemma TwoEntries(options: seq<Choice>)
    requires |options| == 2 && '\n' !in options[0].caption && '\n' !in options[1].caption
    ensures LinesOf(Numbered(options)) == ["1. " + options[0].caption, "2. " + options[1].caption]
  {
    var rows := Numbered(options);
    FirstNumbers();
    assert rows[0] == Str(1) + ". " + options[0].caption && rows[1] == Str(2) + ". " + options[1].caption;
    assert rows == [rows[0], rows[1]];
    assert "1" + ". " == "1. " && "2" + ". " == "2. ";
    TwoRows(rows[0], rows[1]);
  }

  // An approval shows the action, the preview and the two answers; one with no
  // options of its own offers these too.
  lemma ApprovalShowsAllowAndDeny(p: Prompt, action: string, preview: string, asked: int)
    requires p == Approve(action, preview, asked) || p == Approve(action, preview, asked).(options := [])
    ensures Split(Render(p), '\n') == HeaderLines(action, preview) + ["1. Allow", "2. Deny", "Reply with the number."]
  {
    assert Offered(p) == [Choice("allow", "Allow"), Choice("deny", "Deny")];
    assert "1. " + "Allow" == "1. Allow" && "2. " + "Deny" == "2. Deny";
    RenderingShowsQuestionAndBody(p);
    TwoEntries(Offered(p));
    var head, list := HeaderLines(action, preview), ["1. Allow", "2. Deny"];
    assert head + (list + ["Reply with the number."]) == head + ["1. Allow", "2. Deny", "Reply with the number."];
  }

  // A question shows its text, its options with their numbers, and how to reply.
  lemma QuestionShowsItsOptions(question: string, options: seq<string>, asked: int, n: nat)
    requires n < |options|
    ensures var p := Ask(question, options, asked);
            && Split(Render(p), '\n') ==
               Split(question, '\n') + (LinesOf(Numbered(Offered(p))) + ["Reply with the number."])
            && Numbered(Offered(p))[n] == Str(n + 1) + ". " + options[n] && |Offered(p)| == |options|
  {
    RenderingShowsQuestionAndBody(Ask(question, options, asked));
    assert Strip("") == "";
  }

  // These lines stand in lines from line at on, and others follow.
  predicate Shows(lines: seq<string>, at: nat, entry: seq<string>) {
    at + |entry| < |lines| && lines[at..at + |entry|] == entry
  }

  lemma ShowsInside(lines: seq<string>, head: seq<string>, before: seq<string>, entry: seq<string>, all: seq<string>, foot: string)
    requires lines == head + all + [foot] && before + entry <= all
    ensures Shows(lines, |head| + |before|, entry)
  {
    var at := |head| + |before|;
    assert all[..|before| + |entry|] == before + entry;
    forall i | 0 <= i < |entry| ensures lines[at + i] == entry[i] {
      assert lines[at + i] == all[|before| + i] == (before + entry)[|before| + i];
    }
  }

  lemma ListedRow(lines: seq<string>, heads: seq<string>, rows: seq<string>, foot: string, n: nat, at: nat, entry: seq<string>)
    requires n < |rows| && lines == heads + LinesOf(rows) + [foot]
    requires at == |heads| + |LinesOf(rows[..n])| && entry == Split(rows[n], '\n')
    ensures Shows(lines, at, entry)
  {
    LinesOfMore(rows, n);
    ShowsInside(lines, heads, LinesOf(rows[..n]), entry, LinesOf(rows), foot);
  }

  // Entry n as it is shown: the number, then the label, whatever that holds.
  function ShownEntry(p: Prompt, n: nat): seq<string>
    requires 1 <= n <= |Offered(p)|
  {
    var caption := Split(Offered(p)[n - 1].caption, '\n');
    [Str(n) + ". " + caption[0]] + caption[1..]
  }

  lemma RowIsEntry(p: Prompt, n: nat)
    requires 1 <= n <= |Offered(p)|
    ensures Split(Numbered(Offered(p))[n - 1], '\n') == ShownEntry(p, n)
  {
    EntryLines(Offered(p), n);
  }

  lemma EntryIsShown(p: Prompt, lines: seq<string>, n: nat)
    requires 1 <= n <= |Offered(p)|
    requires lines == Split(Header(p), '\n') + LinesOf(Numbered(Offered(p))) + [Footer(p.kind)]
    ensures Shows(lines, Above(p, n), ShownEntry(p, n))
  {
    RowIsEntry(p, n);
    ListedRow(lines, Split(Header(p), '\n'), Numbered(Offered(p)), Footer(p.kind), n - 1, Above(p, n), ShownEntry(p, n));
  }

  lemma RenderingListsTheOptions(p: Prompt, n: nat)
    requires p.kind in {ChoiceSingle, ChoiceMulti, Approval} && 1 <= n <= |Offered(p)|
    ensures Shows(Split(Render(p), '\n'), Above(p, n), ShownEntry(p, n))
  {
    RenderingIsHeaderEntriesFooter(p);
    EntryIsShown(p, Split(Render(p), '\n'), n);
  }

  // The entry numbered n shows the option that a reply read as the number n selects.
  lemma ShownNumberSelectsItsOption(p: Prompt, n: nat, text: string, lower: string -> string)
    requires p.kind in {ChoiceSingle, Approval} && 1 <= n <= |Offered(p)| && ParseInt(Strip(text)) == Some(n)
    ensures Shows(Split(Render(p), '\n'), Above(p, n), ShownEntry(p, n))
    ensures ParseReply(p, text, lower) == Some(Reply(Some([Offered(p)[n - 1].key]), None))
  {
    NumberSelects(p, n, text, lower);
    RenderingListsTheOptions(p, n);
  }

  // ---------- From the options asked to the answer returned ----------

  function FirstForty(s: string): string {
    if |s| <= 40 then s else s[..40]
  }

  predicate SameKey(options: seq<string>, i: nat, j: nat)
    requires i < |options| && j < |options|
  {
    FirstForty(options[i]) == FirstForty(options[j])
  }

  // The last of the options that share option i's key.
  function LastWithKeyOf(options: seq<string>, i: nat): (j: nat)
    requires i < |options|
    ensures i <= j < |options| && SameKey(options, i, j)
    ensures forall k | j < k < |options| :: !SameKey(options, i, k)
  {
    LastBefore(options, i, |options|)
  }

  function LastBefore(options: seq<string>, i: nat, n: nat): (j: nat)
    requires i < n <= |options|
    ensures i <= j < n && SameKey(options, i, j)
    ensures forall k | j < k < n :: !SameKey(options, i, k)
  {
    if SameKey(options, i, n - 1) then n - 1 else LastBefore(options, i, n - 1)
  }

  lemma {:induction false} LastNamedIsLast(names: seq<string>, values: seq<string>, j: nat)
    requires |names| == |values| && j < |names|
    requires forall k | j < k < |names| :: names[k] != names[j]
    ensures LastNamed(names, values, names[j]) == Some(values[j])
    decreases |names|
  {
    if j < |names| - 1 {
      LastNamedIsLast(names[..|names| - 1], values[..|values| - 1], j);
    }
  }

  // A reply that is no option's number and no approval word selects the last
  // option with that label, in any case.
  lemma LabelSelects(p: Prompt, i: nat, text: string, lower: string -> string)
    requires p.kind in {ChoiceSingle, Approval} && i < |Offered(p)|
    requires lower(Offered(p)[i].caption) == lower(Strip(text))
    requires forall k | i < k < |Offered(p)| :: lower(Offered(p)[k].caption) != lower(Strip(text))
    requires TryNumeric(Strip(text), Offered(p)).None? && Alias(lower(Strip(text))).None?
    ensures ParseReply(p, text, lower) == Some(Reply(Some([Offered(p)[i].key]), None))
  {
    var options := Offered(p);
    LastNamedIsLast(LoweredLabels(options, lower), KeysOf(options), i);
  }

  predicate Offers(options: seq<Choice>, key: string) {
    exists i :: 0 <= i < |options| && options[i].key == key
  }

  // What a reply says to a question with one answer: option i's number; or, if that is
  // no option's, a word for an answer offered under that name; or, if it is none of
  // these, the label of option i and of none behind it. Case does not matter.
  predicate ChoosesAlone(said: string, options: seq<Choice>, lower: string -> string, i: nat) {
    i < |options| &&
    if IsOptionNumber(said, options) then ParseInt(said) == Some(i + 1)
    else if lower(said) in {"allow", "approve", "yes"} && Offers(options, "allow") then options[i].key == "allow"
    else if lower(said) in {"deny", "reject", "no"} && Offers(options, "deny") then options[i].key == "deny"
    else lower(options[i].caption) == lower(said) && forall k | i < k < |options| :: lower(options[k].caption) != lower(said)
  }

  lemma OffersIsKey(options: seq<Choice>, key: string)
    ensures Offers(options, key) <==> key in KeysOf(options)
  {
    KeyIsNamed(options, key);
  }

  lemma ChoiceAloneIsKey(said: string, options: seq<Choice>, lower: string -> string, i: nat)
    requires ChoosesAlone(said, options, lower, i)
    ensures OneKey(said, options, lower) == Some(options[i].key)
  {
    OffersIsKey(options, "allow");
    OffersIsKey(options, "deny");
    var word := Alias(lower(said));
    if !IsOptionNumber(said, options) && !(word.Some? && word.value in KeysOf(options)) {
      LastNamedIsLast(LoweredLabels(options, lower), KeysOf(options), i);
    }
  }

  lemma KeyIsChosenAlone(said: string, options: seq<Choice>, lower: string -> string) returns (i: nat)
    requires OneKey(said, options, lower).Some?
    ensures ChoosesAlone(said, options, lower, i)
  {
    var word, names := Alias(lower(said)), LoweredLabels(options, lower);
    OffersIsKey(options, "allow");
    OffersIsKey(options, "deny");
    if IsOptionNumber(said, options) {
      i := ParseInt(said).value - 1;
    } else if word.Some? && word.value in KeysOf(options) {
      i := LastIndex(KeysOf(options), word.value);
    } else {
      if lower(said) !in names { LastNamedNone(names, KeysOf(options), lower(said)); }
      i := LastIndex(names, lower(said));
      assert forall k | 0 <= k < |options| :: names[k] == lower(options[k].caption);
    }
  }

  // A reply to a question with one answer selects the option it chooses, and is not
  // accepted exactly when it chooses none.
  lemma SingleReplySelects(p: Prompt, text: string, lower: string -> string)
    requires p.kind in {ChoiceSingle, Approval}
    ensures var options := Offered(p);
            && (ParseReply(p, text, lower).Some? <==> exists i: nat :: ChoosesAlone(Strip(text), options, lower, i))
            && (forall i: nat | ChoosesAlone(Strip(text), options, lower, i) ::
                  ParseReply(p, text, lower) == Some(Reply(Some([options[i].key]), None)))
  {
    var options, said := Offered(p), Strip(text);
    forall i: nat | ChoosesAlone(said, options, lower, i) ensures OneKey(said, options, lower) == Some(options[i].key) {
      ChoiceAloneIsKey(said, options, lower, i);
    }
    if options != [] && OneKey(said, options, lower).Some? { var i := KeyIsChosenAlone(said, options, lower); }
  }

  // A notice takes no reply, and neither does a choice of several with no options.
  lemma NothingToChoose(p: Prompt, text: string, lower: string -> string)
    requires p.kind == Notice || (p.kind == ChoiceMulti && p.options == [])
    ensures ParseReply(p, text, lower) == None
  {
  }

  lemma LabelOfKey(options: seq<string>, i: nat)
    requires i < |options|
    ensures var choices := OptionsOf(options);
            && KeyOf(options[i]) in KeysOf(choices)
            && LastNamed(KeysOf(choices), LabelsOf(choices), KeyOf(options[i])) == Some(options[LastWithKeyOf(options, i)])
  {
    var choices, j := OptionsOf(options), LastWithKeyOf(options, i);
    assert KeysOf(choices)[i] == KeyOf(options[i]);
    forall k | j < k < |options| ensures KeysOf(choices)[k] != KeysOf(choices)[j] { assert !SameKey(options, i, k); }
    LastNamedIsLast(KeysOf(choices), LabelsOf(choices), j);
  }

  lemma AnswerToKey(question: string, options: seq<string>, asked: int, i: nat, now: int, sender: string)
    requires i < |options|
    ensures var p, call := Ask(question, options, asked), Call(now, Reply(Some([KeyOf(options[i])]), None), sender);
            && (Succeeds(p, call) <==> now < asked + 3600)
            && ResultOf(Resolved(p, call)) == if now < asked + 3600 then Answer(options[LastWithKeyOf(options, i)]) else Waiting(Expired)
  {
    LabelOfKey(options, i);
  }

  // Asking, replying with a number within the hour, and reading the result returns
  // the last option that has the chosen one's first 40 characters; later, nothing.
  lemma AnswerToNumber(question: string, options: seq<string>, asked: int, text: string, i: nat, now: int, sender: string,
                       lower: string -> string)
    requires i < |options| && ParseInt(Strip(text)) == Some(i + 1)
    ensures var p := Ask(question, options, asked);
            var reply := ParseReply(p, text, lower);
            && reply.Some?
            && (Succeeds(p, Call(now, reply.value, sender)) <==> now < asked + 3600)
            && ResultOf(Resolved(p, Call(now, reply.value, sender))) ==
               if now < asked + 3600 then Answer(options[LastWithKeyOf(options, i)]) else Waiting(Expired)
  {
    NumberSelects(Ask(question, options, asked), i + 1, text, lower);
    AnswerToKey(question, options, asked, i, now, sender);
  }

  // What comes back from replying with the number shown before option i, if anything.
  function Returned(question: string, options: seq<string>, asked: int, i: nat, now: int, sender: string,
                    lower: string -> string): Result
    requires i < |options|
  {
    var p := Ask(question, options, asked);
    match ParseReply(p, Str(i + 1), lower)
    case None => ResultOf(p)
    case Some(reply) => ResultOf(Resolved(p, Call(now, reply, sender)))
  }

  // Every choice comes back as chosen exactly when the first 40 characters of an
  // option tell it from all the different ones.
  lemma ChoicesComeBackExactlyWhenPrefixesDiffer(question: string, options: seq<string>, asked: int, now: int,
                                                 sender: string, lower: string -> string)
    requires now < asked + 3600
    ensures (forall i: nat | i < |options| :: Returned(question, options, asked, i, now, sender, lower) == Answer(options[i]))
            <==> (forall i: nat, j: nat | i < |options| && j < |options| :: SameKey(options, i, j) ==> options[i] == options[j])
  {
    forall i: nat | i < |options|
      ensures Returned(question, options, asked, i, now, sender, lower) == Answer(options[LastWithKeyOf(options, i)])
    {
      NumberReadsBack(i + 1);
      AnswerToNumber(question, options, asked, Str(i + 1), i, now, sender, lower);
    }
    forall i: nat, j: nat | i < |options| && j < |options| && SameKey(options, i, j)
      ensures LastWithKeyOf(options, i) == LastWithKeyOf(options, j)
    {
      var a, b := LastWithKeyOf(options, i), LastWithKeyOf(options, j);
      assert SameKey(options, i, b) && SameKey(options, j, a);
    }
  }

  // Free text comes back as typed, less the blanks around it.
  lemma AnswerToFreeText(question: string, asked: int, text: string, now: int, sender: string, lower: string -> string)
    requires now < asked + 3600
    ensures var p := Ask(question, [], asked);
            var reply := ParseReply(p, text, lower);
            && (reply.None? <==> Strip(text) == "")
            && (reply.Some? ==> ResultOf(Resolved(p, Call(now, reply.value, sender))) == Answer(Strip(text)))
  {
  }

  // ---------- Free text sent to the newest open question ----------

  // resolve_pending_ask, without a thread: of the questions in the order asked, the
  // last that takes free text, is pending and has not expired.
  function NewestWaiting(prompts: seq<Prompt>, now: int): (found: Option<nat>)
    ensures found.Some? ==> found.value < |prompts| && TakesText(prompts[found.value], now)
    ensures found.Some? ==> forall i | found.value < i < |prompts| :: !TakesText(prompts[i], now)
    ensures found.None? ==> forall i | 0 <= i < |prompts| :: !TakesText(prompts[i], now)
  {
    if prompts == [] then None
    else
      var n := |prompts| - 1;
      if TakesText(prompts[n], now) then Some(n) else NewestWaiting(prompts[..n], now)
  }

  predicate TakesText(p: Prompt, now: int) {
    p.kind.FreeText? && p.status == Pending && p.expiresAt > now
  }

  function TextCall(text: string, now: int, sender: string): Call {
    Call(now, Reply(None, Some(text)), sender)
  }

  // later is the clock at the resolve, which may have gone on since the lookup.
  function ResolvePendingAsk(prompts: seq<Prompt>, text: string, now: int, later: int, sender: string): seq<Prompt> {
    match NewestWaiting(prompts, now)
    case None => prompts
    case Some(n) => prompts[n := Resolved(prompts[n], TextCall(text, later, sender))]
  }

  predicate IsOpen(p: Prompt, now: int) {
    p.kind == FreeText && p.status == Pending && now < p.expiresAt
  }

  predicate IsNewestOpen(prompts: seq<Prompt>, now: int, n: nat) {
    n < |prompts| && IsOpen(prompts[n], now) && forall i | n < i < |prompts| :: !IsOpen(prompts[i], now)
  }

  // The text is the newest open question's answer as sent, blanks and all, exactly
  // when it has not expired meanwhile; every other question stays as it is, and all
  // do when none is open.
  lemma PendingAskTakesTextVerbatim(prompts: seq<Prompt>, text: string, now: int, later: int, sender: string)
    ensures var after := ResolvePendingAsk(prompts, text, now, later, sender);
            && |after| == |prompts|
            && (forall i: nat | i < |prompts| && !IsNewestOpen(prompts, now, i) :: after[i] == prompts[i])
            && (forall n: nat | IsNewestOpen(prompts, now, n) ::
                  && (ResultOf(after[n]) == Answer(text) <==> later < prompts[n].expiresAt)
                  && (later < prompts[n].expiresAt ==> after[n].answeredBy == sender))
  {
    var found := NewestWaiting(prompts, now);
    assert forall n: nat | IsNewestOpen(prompts, now, n) :: found == Some(n);
  }

  // ---------- Several numbers in one reply ----------

  function Numbers(ns: seq<nat>): (parts: seq<string>)
    ensures |parts| == |ns| && forall i | 0 <= i < |ns| :: parts[i] == Str(ns[i])
  {
    seq(|ns|, i requires 0 <= i < |ns| => Str(ns[i]))
  }

  function KeysAt(options: seq<Choice>, ns: seq<nat>): (keys: seq<string>)
    requires forall i | 0 <= i < |ns| :: 1 <= ns[i] <= |options|
    ensures |keys| == |ns| && forall i | 0 <= i < |ns| :: keys[i] == options[ns[i] - 1].key
  {
    seq(|ns|, i requires 0 <= i < |ns| => options[ns[i] - 1].key)
  }

  lemma {:induction false} NonBlankNumbers(ns: seq<nat>)
    ensures NonBlank(Numbers(ns)) == Numbers(ns)
  {
    if ns != [] {
      NonBlankNumbers(ns[1..]);
      NumberReadsBack(ns[0]);
      assert Numbers(ns)[1..] == Numbers(ns[1..]);
    }
  }

  lemma PartKeyOfNumber(n: nat, options: seq<Choice>, lower: string -> string)
    requires 1 <= n <= |options|
    ensures PartKey(Str(n), options, lower) == Some(options[n - 1].key)
  {
    NumberReadsBack(n);
  }

  lemma PartKeysOneMore(parts: seq<string>, last: string, keys: seq<string>, key: string, options: seq<Choice>, lower: string -> string)
    requires PartKeys(parts, options, lower) == Some(keys) && PartKey(last, options, lower) == Some(key)
    ensures PartKeys(parts + [last], options, lower) == Some(keys + [key])
  {
    var all := parts + [last];
    assert all[..|parts|] == parts && all[|parts|] == last;
  }

  lemma {:induction false} PartKeysAre(parts: seq<string>, keys: seq<string>, options: seq<Choice>, lower: string -> string)
    requires |parts| == |keys|
    requires forall i | 0 <= i < |parts| :: PartKey(parts[i], options, lower) == Some(keys[i])
    ensures PartKeys(parts, options, lower) == Some(keys)
    decreases |parts|
  {
    if parts == [] {
      assert keys == [];
    } else {
      var n := |parts| - 1;
      PartKeysAre(parts[..n], keys[..n], options, lower);
      assert parts == parts[..n] + [parts[n]] && keys == keys[..n] + [keys[n]];
      PartKeysOneMore(parts[..n], parts[n], keys[..n], keys[n], options, lower);
    }
  }

  lemma JoinedNumbersSplit(ns: seq<nat>)
    requires ns != []
    ensures PartsOf(Join(Numbers(ns), ',')) == Numbers(ns)
  {
    forall i | 0 <= i < |ns| ensures ',' !in Numbers(ns)[i] { NumberReadsBack(ns[i]); }
    SplitOfJoin(Numbers(ns), ',');
    NonBlankNumbers(ns);
  }

  lemma NumberIsKey(ns: seq<nat>, i: nat, options: seq<Choice>, lower: string -> string)
    requires i < |ns| && forall j | 0 <= j < |ns| :: 1 <= ns[j] <= |options|
    ensures PartKey(Numbers(ns)[i], options, lower) == Some(KeysAt(options, ns)[i])
  {
    PartKeyOfNumber(ns[i], options, lower);
  }

  lemma NumbersAreKeys(ns: seq<nat>, options: seq<Choice>, lower: string -> string)
    requires forall i | 0 <= i < |ns| :: 1 <= ns[i] <= |options|
    ensures PartKeys(Numbers(ns), options, lower) == Some(KeysAt(options, ns))
  {
    forall i: nat | i < |ns| ensures PartKey(Numbers(ns)[i], options, lower) == Some(KeysAt(options, ns)[i]) {
      NumberIsKey(ns, i, options, lower);
    }
    PartKeysAre(Numbers(ns), KeysAt(options, ns), options, lower);
  }

  lemma PartsAreReply(p: Prompt, text: string, parts: seq<string>, keys: seq<string>, lower: string -> string)
    requires p.kind == ChoiceMulti && p.options != [] && Strip(text) == text && PartsOf(text) == parts && parts != []
    requires PartKeys(parts, p.options, lower) == Some(keys)
    ensures ParseReply(p, text, lower) == Some(Reply(Some(keys), None))
  {
  }

  // Numbers joined by commas select their options, in the order given, repeats and all.
  lemma NumbersSelectTheirOptions(p: Prompt, ns: seq<nat>, lower: string -> string)
    requires p.kind == ChoiceMulti && ns != [] && forall i | 0 <= i < |ns| :: 1 <= ns[i] <= |p.options|
    ensures ParseReply(p, Join(Numbers(ns), ','), lower) == Some(Reply(Some(KeysAt(p.options, ns)), None))
  {
    JoinedNumbersAreTight(ns);
    JoinedNumbersSplit(ns);
    NumbersAreKeys(ns, p.options, lower);
    PartsAreReply(p, Join(Numbers(ns), ','), Numbers(ns), KeysAt(p.options, ns), lower);
  }

  lemma {:induction false} JoinedNumbersAreTight(ns: seq<nat>)
    requires ns != []
    ensures var text := Join(Numbers(ns), ',');
            text != "" && !IsSpace(text[0]) && !IsSpace(text[|text| - 1]) && Strip(text) == text
  {
    var text := Join(Numbers(ns), ',');
    DigitsReadBack(ns[0]);
    if |ns| > 1 {
      JoinedNumbersAreTight(ns[1..]);
      assert Numbers(ns)[1..] == Numbers(ns[1..]);
      var rest := Join(Numbers(ns[1..]), ',');
      assert text[|text| - 1] == rest[|rest| - 1];
    }
    StripKeeps(text);
  }

  // ---------- Several choices in one reply ----------

  predicate IsOptionNumber(part: string, options: seq<Choice>) {
    ParseInt(part).Some? && 1 <= ParseInt(part).value <= |options|
  }

  // The part is option i's number; or no option's number, and the label of option i
  // and of none behind it, in any case.
  predicate Chooses(part: string, options: seq<Choice>, lower: string -> string, i: nat) {
    i < |options| &&
    if IsOptionNumber(part, options) then ParseInt(part) == Some(i + 1)
    else lower(options[i].caption) == lower(part) && forall k | i < k < |options| :: lower(options[k].caption) != lower(part)
  }

  lemma {:induction false} LastNamedNone(names: seq<string>, values: seq<string>, name: string)
    requires |names| == |values| && name !in names
    ensures LastNamed(names, values, name) == None
    decreases |names|
  {
    if names != [] { LastNamedNone(names[..|names| - 1], values[..|values| - 1], name); }
  }

  lemma {:induction false} LastIndex(names: seq<string>, name: string) returns (j: nat)
    requires name in names
    ensures j < |names| && names[j] == name && forall k | j < k < |names| :: names[k] != name
  {
    var n := |names| - 1;
    if names[n] == name { j := n; } else { j := LastIndex(names[..n], name); }
  }

  lemma PartChooses(part: string, options: seq<Choice>, lower: string -> string, i: nat)
    requires Chooses(part, options, lower, i)
    ensures PartKey(part, options, lower) == Some(options[i].key)
  {
    if !IsOptionNumber(part, options) {
      LastNamedIsLast(LoweredLabels(options, lower), KeysOf(options), i);
    }
  }

  lemma NamedPartChooses(part: string, options: seq<Choice>, lower: string -> string) returns (i: nat)
    requires PartKey(part, options, lower).Some?
    ensures Chooses(part, options, lower, i)
  {
    var names := LoweredLabels(options, lower);
    if IsOptionNumber(part, options) {
      i := ParseInt(part).value - 1;
    } else {
      if lower(part) !in names { LastNamedNone(names, KeysOf(options), lower(part)); }
      i := LastIndex(names, lower(part));
      assert forall k | 0 <= k < |options| :: names[k] == lower(options[k].caption);
    }
  }

  predicate Padded(piece: string, part: string, a: string, b: string) {
    piece == a + part + b && Blank(a) && Blank(b) && Tight(part)
  }

  ghost predicate PaddedOne(piece: string, part: string) {
    exists a, b :: Padded(piece, part, a, b)
  }

  // The parts that are not empty.
  function Inked(parts: seq<string>): seq<string> {
    if parts == [] then []
    else if parts[0] == "" then Inked(parts[1..])
    else [parts[0]] + Inked(parts[1..])
  }

  lemma {:induction false} PaddedAreInked(pieces: seq<string>, parts: seq<string>)
    requires |pieces| == |parts| && forall i | 0 <= i < |pieces| :: PaddedOne(pieces[i], parts[i])
    ensures NonBlank(pieces) == Inked(parts)
  {
    if pieces != [] {
      assert PaddedOne(pieces[0], parts[0]);
      var a, b :| Padded(pieces[0], parts[0], a, b);
      StripOf(a, parts[0], b);
      PaddedAreInked(pieces[1..], parts[1..]);
    }
  }

  // The k-th of these parts chooses the k-th of these options.
  ghost predicate AllChoose(said: seq<string>, options: seq<Choice>, lower: string -> string, chosen: seq<nat>) {
    |chosen| == |said| && forall k | 0 <= k < |said| :: Chooses(said[k], options, lower, chosen[k])
  }

  predicate InRange(options: seq<Choice>, chosen: seq<nat>) {
    forall k | 0 <= k < |chosen| :: chosen[k] < |options|
  }

  function KeysChosen(options: seq<Choice>, chosen: seq<nat>): (keys: seq<string>)
    requires InRange(options, chosen)
    ensures |keys| == |chosen| && forall k | 0 <= k < |chosen| :: keys[k] == options[chosen[k]].key
  {
    seq(|chosen|, k requires 0 <= k < |chosen| => options[chosen[k]].key)
  }

  lemma ChosenKeys(said: seq<string>, options: seq<Choice>, lower: string -> string, chosen: seq<nat>)
    requires AllChoose(said, options, lower, chosen)
    ensures InRange(options, chosen) && PartKeys(said, options, lower) == Some(KeysChosen(options, chosen))
  {
    forall k | 0 <= k < |said| ensures chosen[k] < |options| { assert Chooses(said[k], options, lower, chosen[k]); }
    var keys := KeysChosen(options, chosen);
    forall k | 0 <= k < |said| ensures PartKey(said[k], options, lower) == Some(keys[k]) {
      PartChooses(said[k], options, lower, chosen[k]);
    }
    PartKeysAre(said, keys, options, lower);
  }

  lemma OneMoreChooses(said: seq<string>, last: string, options: seq<Choice>, lower: string -> string, chosen: seq<nat>, i: nat)
    requires AllChoose(said, options, lower, chosen) && Chooses(last, options, lower, i)
    ensures AllChoose(said + [last], options, lower, chosen + [i])
  {
  }

  lemma {:induction false} NamedPartsChoose(said: seq<string>, options: seq<Choice>, lower: string -> string) returns (chosen: seq<nat>)
    requires PartKeys(said, options, lower).Some?
    ensures AllChoose(said, options, lower, chosen)
    decreases |said|
  {
    if said == [] {
      chosen := [];
    } else {
      var n := |said| - 1;
      var before := NamedPartsChoose(said[..n], options, lower);
      var last := NamedPartChooses(said[n], options, lower);
      OneMoreChooses(said[..n], said[n], options, lower, before, last);
      assert said == said[..n] + [said[n]];
      chosen := before + [last];
    }
  }

  lemma CommaParts(p: Prompt, text: string, pieces: seq<string>, parts: seq<string>, lower: string -> string)
    requires p.kind == ChoiceMulti && p.options != [] && pieces != [] && |pieces| == |parts|
    requires Strip(text) == Join(pieces, ',')
    requires forall i | 0 <= i < |pieces| :: ',' !in pieces[i] && PaddedOne(pieces[i], parts[i])
    ensures var keys := PartKeys(Inked(parts), p.options, lower);
            ParseReply(p, text, lower) ==
            if Inked(parts) == [] || keys.None? then None else Some(Reply(Some(keys.value), None))
  {
    SplitOfJoin(pieces, ',');
    PaddedAreInked(pieces, parts);
    assert PartsOf(Strip(text)) == Inked(parts);
  }

  // A reply of pieces between commas, with blanks around what each says, selects what
  // each piece that says anything chooses, in their order. It is not accepted exactly
  // when none says anything or one of them chooses nothing.
  lemma CommaReplySelects(p: Prompt, text: string, pieces: seq<string>, parts: seq<string>, lower: string -> string)
    requires p.kind == ChoiceMulti && p.options != [] && pieces != [] && |pieces| == |parts|
    requires Strip(text) == Join(pieces, ',')
    requires forall i | 0 <= i < |pieces| :: ',' !in pieces[i] && PaddedOne(pieces[i], parts[i])
    ensures var said := Inked(parts);
            && (ParseReply(p, text, lower).Some? <==> said != [] && exists chosen :: AllChoose(said, p.options, lower, chosen))
            && (forall chosen | said != [] && AllChoose(said, p.options, lower, chosen) ::
                  InRange(p.options, chosen)
                  && ParseReply(p, text, lower) == Some(Reply(Some(KeysChosen(p.options, chosen)), None)))
  {
    var said := Inked(parts);
    CommaParts(p, text, pieces, parts, lower);
    forall chosen | AllChoose(said, p.options, lower, chosen)
      ensures InRange(p.options, chosen) && PartKeys(said, p.options, lower) == Some(KeysChosen(p.options, chosen))
    {
      ChosenKeys(said, p.options, lower, chosen);
    }
    if PartKeys(said, p.options, lower).Some? { var chosen := NamedPartsChoose(said, p.options, lower); }
  }

  // ---------- Any number of calls ----------

  function Run(p: Prompt, calls: seq<Call>): Prompt
    decreases |calls|
  {
    if calls == [] then p else Resolved(Run(p, calls[..|calls| - 1]), calls[|calls| - 1])
  }

  // Did call i, among calls, record its reply?
  predicate Recording(p: Prompt, calls: seq<Call>, i: nat)
    requires i < |calls|
  {
    Succeeds(Run(p, calls[..i]), calls[i])
  }

  // A call that settles a pending prompt: one come too late, or one with an acceptable reply.
  predicate Settles(p: Prompt, call: Call) {
    call.now >= p.expiresAt || ReplyAccepted(p, call.reply)
  }

  function FirstSettling(p: Prompt, calls: seq<Call>): (n: nat)
    ensures n <= |calls|
    ensures forall i | 0 <= i < n :: !Settles(p, calls[i])
    ensures n < |calls| ==> Settles(p, calls[n])
    decreases |calls|
  {
    if calls == [] then 0
    else
      var m := |calls| - 1;
      var n := FirstSettling(p, calls[..m]);
      if n == m && !Settles(p, calls[m]) then n + 1 else n
  }

  lemma SettledStays(p: Prompt, settled: Call, call: Call)
    requires p.status == Pending && Settles(p, settled)
    ensures var q := Resolved(p, settled); !Succeeds(q, call) && Resolved(q, call) == q
  {
  }

  lemma {:induction false} FinalRow(p: Prompt, calls: seq<Call>)
    requires p.status == Pending
    ensures var n := FirstSettling(p, calls);
            Run(p, calls) == if n == |calls| then p else Resolved(p, calls[n])
    decreases |calls|
  {
    if calls != [] {
      var m := |calls| - 1;
      FinalRow(p, calls[..m]);
      var n := FirstSettling(p, calls[..m]);
      if n < m {
        SettledStays(p, calls[n], calls[m]);
      }
    }
  }

  lemma RecordingCall(p: Prompt, calls: seq<Call>, i: nat)
    requires p.status == Pending && i < |calls|
    ensures Recording(p, calls, i) <==> i == FirstSettling(p, calls) && calls[i].now < p.expiresAt
  {
    FinalRow(p, calls[..i]);
    var n, k := FirstSettling(p, calls), FirstSettling(p, calls[..i]);
    if k < i {
      assert n == k;
      SettledStays(p, calls[k], calls[i]);
    } else {
      assert n >= i;
    }
  }

  // Whatever the calls and their clocks, the first call that settles the prompt
  // decides it for good: the final row is that call's, and it alone may have succeeded.
  lemma FirstSettlingCallDecides(p: Prompt, calls: seq<Call>)
    requires p.status == Pending
    ensures var n := FirstSettling(p, calls);
            Run(p, calls) == if n == |calls| then p else Resolved(p, calls[n])
    ensures forall i: nat | i < |calls| ::
              Recording(p, calls, i) <==> i == FirstSettling(p, calls) && calls[i].now < p.expiresAt
  {
    FinalRow(p, calls);
    forall i: nat | i < |calls|
      ensures Recording(p, calls, i) <==> i == FirstSettling(p, calls) && calls[i].now < p.expiresAt
    {
      RecordingCall(p, calls, i);
    }
  }

  // The reply names keys of the prompt's options only, as many as it permits; or it
  // names none, or the prompt has none.
  predicate NamesOptions(p: Prompt, reply: Reply) {
    reply.optionKeys.Some? && p.options != [] ==>
      && (forall i | 0 <= i < |reply.optionKeys.value| ::
            exists j :: 0 <= j < |p.options| && p.options[j].key == reply.optionKeys.value[i])
      && p.minChoices <= |reply.optionKeys.value| <= p.maxChoices
  }

  lemma KeyIsNamed(options: seq<Choice>, key: string)
    ensures key in KeysOf(options) <==> exists j :: 0 <= j < |options| && options[j].key == key
  {
    var names := KeysOf(options);
    assert forall j | 0 <= j < |options| :: names[j] == options[j].key;
  }

  lemma AcceptedNamesOptions(p: Prompt, reply: Reply)
    ensures ReplyAccepted(p, reply) <==> NamesOptions(p, reply)
  {
    if reply.optionKeys.Some? {
      var keys := reply.optionKeys.value;
      forall i | 0 <= i < |keys|
        ensures keys[i] in KeysOf(p.options) <==> exists j :: 0 <= j < |p.options| && p.options[j].key == keys[i]
      {
        KeyIsNamed(p.options, keys[i]);
      }
      assert (forall k | k in keys :: k in KeysOf(p.options)) <==> (forall i | 0 <= i < |keys| :: keys[i] in KeysOf(p.options));
    }
  }

  // Call i is in time with a permitted reply, and no call before it settled anything.
  predicate AnswersFirst(p: Prompt, calls: seq<Call>, i: nat) {
    && i < |calls| && calls[i].now < p.expiresAt && NamesOptions(p, calls[i].reply)
    && forall j: nat | j < i :: calls[j].now < p.expiresAt && !NamesOptions(p, calls[j].reply)
  }

  // Call i is too late, and no call before it settled anything.
  predicate ExpiresFirst(p: Prompt, calls: seq<Call>, i: nat) {
    && i < |calls| && calls[i].now >= p.expiresAt
    && forall j: nat | j < i :: calls[j].now < p.expiresAt && !NamesOptions(p, calls[j].reply)
  }

  lemma SettlingCalls(p: Prompt, calls: seq<Call>)
    requires p.status == Pending
    ensures var n := FirstSettling(p, calls);
            && (forall i: nat :: AnswersFirst(p, calls, i) <==> i == n && n < |calls| && calls[n].now < p.expiresAt)
            && (forall i: nat :: ExpiresFirst(p, calls, i) <==> i == n && n < |calls| && calls[n].now >= p.expiresAt)
  {
    forall i: nat | i < |calls| ensures Settles(p, calls[i]) <==> calls[i].now >= p.expiresAt || NamesOptions(p, calls[i].reply) {
      AcceptedNamesOptions(p, calls[i].reply);
    }
  }

  function Replied(p: Prompt, reply: Reply): Response {
    if reply.optionKeys.Some? then Keys(reply.optionKeys.value)
    else if reply.text.Some? then Text(reply.text.value)
    else p.response
  }

  // Whatever the calls and their clocks, a pending prompt ends up answered with the
  // first reply in time that names keys of its options, as many as permitted, or no
  // keys; or expired, if a call came too late before any such; or as it was.
  lemma AnsweredByTheFirstPermittedReply(p: Prompt, calls: seq<Call>)
    requires p.status == Pending
    ensures forall i: nat | AnswersFirst(p, calls, i) ::
              Run(p, calls) == p.(status := Answered, response := Replied(p, calls[i].reply), answeredBy := calls[i].sender)
    ensures forall i: nat | ExpiresFirst(p, calls, i) ::
              Run(p, calls) == p.(status := Expired) && ResultOf(Run(p, calls)) == Waiting(Expired)
    ensures (forall i: nat :: !AnswersFirst(p, calls, i) && !ExpiresFirst(p, calls, i)) ==>
              Run(p, calls) == p && ResultOf(p) == Waiting(Pending)
  {
    SettlingCalls(p, calls);
    FinalRow(p, calls);
    var n := FirstSettling(p, calls);
    assert n < |calls| ==> AnswersFirst(p, calls, n) || ExpiresFirst(p, calls, n);
  }

  // An answered prompt stays as it is, and so does its result.
  lemma {:induction false} AnswerStays(p: Prompt, calls: seq<Call>, more: seq<Call>)
    requires Run(p, calls).status != Pending
    ensures Run(p, calls + more) == Run(p, calls)
    decreases |more|
  {
    if more == [] {
      assert calls + more == calls;
    } else {
      var m := |more| - 1;
      assert (calls + more)[..|calls + more| - 1] == calls + more[..m];
      AnswerStays(p, calls, more[..m]);
    }
  }

  // What is handed back for an answered prompt: for an approval the key named, and a
  // denial when none is; else the text, or the label of the last option with the
  // first key named, or that key, or nothing.
  lemma ResultOfAnswered(p: Prompt)
    requires p.status == Answered
    ensures p.kind == Approval ==>
              ResultOf(p) == Decision(if p.response.Keys? && p.response.keys != [] then p.response.keys[0] else "deny")
    ensures p.kind != Approval && p.response.Text? ==> ResultOf(p) == Answer(p.response.text)
    ensures p.kind != Approval && (p.response.NoResponse? || p.response == Keys([])) ==> ResultOf(p) == Answer("")
    ensures p.kind != Approval && p.response.Keys? && p.response.keys != [] ==>
              && (forall i | 0 <= i < |p.options| && p.options[i].key == p.response.keys[0]
                    && (forall j | i < j < |p.options| :: p.options[j].key != p.response.keys[0]) ::
                    ResultOf(p) == Answer(p.options[i].caption))
              && (!Offers(p.options, p.response.keys[0]) ==> ResultOf(p) == Answer(p.response.keys[0]))
  {
    if p.kind != Approval && p.response.Keys? && p.response.keys != [] {
      var key, names := p.response.keys[0], KeysOf(p.options);
      OffersIsKey(p.options, key);
      if key !in names { LastNamedNone(names, LabelsOf(p.options), key); }
      forall i | 0 <= i < |p.options| && p.options[i].key == key && (forall j | i < j < |p.options| :: p.options[j].key != key)
        ensures LastNamed(names, LabelsOf(p.options), key) == Some(p.options[i].caption)
      {
        LastNamedIsLast(names, LabelsOf(p.options), i);
      }
    }
  }

  // A decision to allow comes only from an in-time reply naming the allow option,
  // and no call before it was acceptable.
  lemma AllowedExactlyByFirstReply(action: string, preview: string, asked: int, calls: seq<Call>)
    ensures var p := Approve(action, preview, asked);
            var n := FirstSettling(p, calls);
            ResultOf(Run(p, calls)) == Decision("allow")
            <==> n < |calls| && calls[n].now < asked + 900 && calls[n].reply.optionKeys == Some(["allow"])
  {
    var p := Approve(action, preview, asked);
    FirstSettlingCallDecides(p, calls);
    var n := FirstSettling(p, calls);
    if n < |calls| && calls[n].reply.optionKeys.Some? {
      var keys := calls[n].reply.optionKeys.value;
      if ReplyAccepted(p, calls[n].reply) && keys != [] {
        assert keys == [keys[0]];
      }
    }
  }

  lemma OnlyTwoKeys(keys: seq<string>)
    requires |keys| <= 1 && forall k | k in keys :: k in KeysOf(APPROVAL_OPTIONS)
    ensures keys in {[], ["allow"], ["deny"]}
  {
    var names := KeysOf(APPROVAL_OPTIONS);
    assert names == ["allow", "deny"];
    if keys != [] {
      assert keys == [keys[0]] && keys[0] in names;
    }
  }

  // What an acceptable reply to an approval comes to.
  lemma ApprovalResult(action: string, preview: string, asked: int, call: Call)
    requires var p := Approve(action, preview, asked); call.now < p.expiresAt && ReplyAccepted(p, call.reply)
    ensures ResultOf(Resolved(Approve(action, preview, asked), call)) ==
            Decision(if call.reply.optionKeys == Some(["allow"]) then "allow" else "deny")
  {
    if call.reply.optionKeys.Some? { OnlyTwoKeys(call.reply.optionKeys.value); }
  }

  // A decision to deny comes from every other settling reply in time.
  lemma DeniedExactlyByAnyOtherReply(action: string, preview: string, asked: int, calls: seq<Call>)
    ensures var p := Approve(action, preview, asked);
            var n := FirstSettling(p, calls);
            ResultOf(Run(p, calls)) == Decision("deny")
            <==> n < |calls| && calls[n].now < asked + 900 && calls[n].reply.optionKeys != Some(["allow"])
  {
    var p := Approve(action, preview, asked);
    FirstSettlingCallDecides(p, calls);
    var n := FirstSettling(p, calls);
    assert "allow"[0] != "deny"[0];
    if n < |calls| && calls[n].now < p.expiresAt { ApprovalResult(action, preview, asked, calls[n]); }
  }

  lemma ApprovalByLabel(text: string, lower: string -> string)
    requires lower("Allow") == "allow" && lower("Deny") == "deny"
    ensures ByLabel(APPROVAL_OPTIONS, lower, text) ==
            if lower(text) == "deny" then Some("deny") else if lower(text) == "allow" then Some("allow") else None
  {
    var names, keys := LoweredLabels(APPROVAL_OPTIONS, lower), KeysOf(APPROVAL_OPTIONS);
    assert names[..1] == [lower("Allow")] && keys[..1] == ["allow"];
    assert names[..1][..0] == [] && keys[..1][..0] == [];
    assert LastNamed([], [], lower(text)) == None;
    assert LastNamed(names[..1], keys[..1], lower(text)) == if lower(text) == "allow" then Some("allow") else None;
  }

  lemma ApprovalKey(text: string, lower: string -> string)
    requires lower("Allow") == "allow" && lower("Deny") == "deny"
    ensures OneKey(text, APPROVAL_OPTIONS, lower) == Some("allow")
            <==> ParseInt(text) == Some(1) || (ParseInt(text) != Some(2) && lower(text) in {"allow", "approve", "yes"})
  {
    ApprovalByLabel(text, lower);
    var keys := KeysOf(APPROVAL_OPTIONS);
    assert keys[0] == "allow" && keys[1] == "deny" && "deny"[0] == 'd' && "allow"[0] == 'a';
  }

  // The typed replies that name it.
  lemma RepliesThatAllow(action: string, preview: string, asked: int, text: string, lower: string -> string)
    requires lower("Allow") == "allow" && lower("Deny") == "deny"
    ensures var p := Approve(action, preview, asked);
            ParseReply(p, text, lower) == Some(Reply(Some(["allow"]), None))
            <==> ParseInt(Strip(text)) == Some(1)
                 || (ParseInt(Strip(text)) != Some(2) && lower(Strip(text)) in {"allow", "approve", "yes"})
  {
    var key := OneKey(Strip(text), APPROVAL_OPTIONS, lower);
    ApprovalKey(Strip(text), lower);
    if key.Some? {
      assert [key.value][0] == key.value && ["allow"][0] == "allow";
    }
  }

  lemma DenialKey(text: string, lower: string -> string)
    requires lower("Allow") == "allow" && lower("Deny") == "deny"
    ensures OneKey(text, APPROVAL_OPTIONS, lower) == Some("deny")
            <==> ParseInt(text) == Some(2) || (ParseInt(text) != Some(1) && lower(text) in {"deny", "reject", "no"})
  {
    ApprovalByLabel(text, lower);
    var keys := KeysOf(APPROVAL_OPTIONS);
    assert keys[0] == "allow" && keys[1] == "deny" && "deny"[0] == 'd' && "allow"[0] == 'a';
  }

  // The typed replies that deny.
  lemma RepliesThatDeny(action: string, preview: string, asked: int, text: string, lower: string -> string)
    requires lower("Allow") == "allow" && lower("Deny") == "deny"
    ensures var p := Approve(action, preview, asked);
            ParseReply(p, text, lower) == Some(Reply(Some(["deny"]), None))
            <==> ParseInt(Strip(text)) == Some(2)
                 || (ParseInt(Strip(text)) != Some(1) && lower(Strip(text)) in {"deny", "reject", "no"})
  {
    var key := OneKey(Strip(text), APPROVAL_OPTIONS, lower);
    DenialKey(Strip(text), lower);
    if key.Some? {
      assert [key.value][0] == key.value && ["deny"][0] == "deny";
    }
  }
}
