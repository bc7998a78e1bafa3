/**
 * The civic-star appreciation form: the selected appreciation kind, the
 * reward checkboxes, the preview button's label, the text of the preview
 * dialog, and the star counters that grow when an appreciation is sent.
 */
module Appreciation {
  import opened Options
  import opened Text
  import opened Lookup
  import opened Navigation

  const Certificate := "certificate"
  const PlainLabel := "Preview"
  const RewardsLabel := "Preview Rewards"

  /** updatePreviewButton: the label names rewards exactly when some reward is checked. */
  function PreviewLabel(checked: seq<bool>): (caption: string)
    ensures caption == RewardsLabel <==> exists i :: 0 <= i < |checked| && checked[i]
    ensures caption == PlainLabel <==> forall i :: 0 <= i < |checked| ==> !checked[i]
  {
    SomeTrue(checked);
    CountTrueZero(checked);
    if CountTrue(checked) > 0 then RewardsLabel else PlainLabel
  }

  /** The values of the checked reward checkboxes, in page order. */
  function CheckedValues(rewards: seq<string>, checked: seq<bool>): (values: seq<string>)
    requires |rewards| == |checked|
    ensures |values| == CountTrue(checked)
    ensures forall v :: v in values <==> exists i :: 0 <= i < |rewards| && checked[i] && rewards[i] == v
    decreases |rewards|
  {
    if rewards == [] then []
    else
      var rest := CheckedValues(rewards[1..], checked[1..]);
      assert forall i :: 1 <= i < |rewards| ==> rewards[i] == rewards[1..][i - 1] && checked[i] == checked[1..][i - 1];
      if checked[0] then [rewards[0]] + rest else rest
  }

  /**
   * Page order and multiplicity: a checkbox appended to the page appends its
   * value to the list exactly when it is checked.
   */
  lemma {:induction false} CheckedValuesAppend(rewards: seq<string>, checked: seq<bool>, reward: string, isChecked: bool)
    requires |rewards| == |checked|
    ensures CheckedValues(rewards + [reward], checked + [isChecked])
         == CheckedValues(rewards, checked) + (if isChecked then [reward] else [])
    decreases |rewards|
  {
    if rewards != [] {
      assert (rewards + [reward])[1..] == rewards[1..] + [reward];
      assert (checked + [isChecked])[1..] == checked[1..] + [isChecked];
      CheckedValuesAppend(rewards[1..], checked[1..], reward, isChecked);
    }
  }

  /**
   * The kind of the first active appreciation option, or "civic-star" when
   * no option is active or the active one has an empty type.
   */
  function SelectedKind(options: seq<string>, active: seq<bool>): (kind: string)
    requires |options| == |active|
    ensures kind != ""
    ensures true !in active ==> kind == CivicStar
    ensures true in active && options[IndexOf(active, true)] != "" ==> kind == options[IndexOf(active, true)]
    ensures true in active && options[IndexOf(active, true)] == "" ==> kind == CivicStar
  {
    if true in active && options[IndexOf(active, true)] != "" then options[IndexOf(active, true)]
    else CivicStar
  }

  function JoinLines(lines: seq<string>): string {
    if lines == [] then ""
    else if |lines| == 1 then lines[0]
    else lines[0] + "\n" + JoinLines(lines[1..])
  }

  /** Every line of a join is part of the joined text. */
  lemma {:induction false} JoinLinesHas(lines: seq<string>, i: nat)
    requires i < |lines|
    ensures Contains(JoinLines(lines), lines[i])
    decreases |lines|
  {
    if |lines| == 1 {
      ContainsInfix([], lines[0], []);
      assert [] + lines[0] + [] == lines[0];
    } else if i == 0 {
      ContainsInfix([], lines[0], "\n" + JoinLines(lines[1..]));
      assert [] + lines[0] + ("\n" + JoinLines(lines[1..])) == JoinLines(lines);
    } else {
      JoinLinesHas(lines[1..], i - 1);
      ContainsWithin(lines[0] + "\n", JoinLines(lines[1..]), [], lines[i]);
      assert lines[0] + "\n" + JoinLines(lines[1..]) + [] == JoinLines(lines);
    }
  }

  /** Joining one more line adds it after a line break at the end. */
  lemma {:induction false} JoinLinesAppend(lines: seq<string>, line: string)
    requires lines != []
    ensures JoinLines(lines + [line]) == JoinLines(lines) + "\n" + line
    decreases |lines|
  {
    var all := lines + [line];
    assert all[1..] == lines[1..] + [line];
    if |lines| > 1 {
      JoinLinesAppend(lines[1..], line);
    }
  }

  function Bullet(reward: string): string {
    "\U{2022} " + RewardName(reward)
  }

  function Bullets(rewards: seq<string>): seq<string> {
    seq(|rewards|, i requires 0 <= i < |rewards| => Bullet(rewards[i]))
  }

  const PreviewIntro := "Preview of Civic Star Appreciation:\n\nType: "
  const PreviewClosing := "\n\nSend this appreciation to Sarah Johnson?"

  /** The dialog up to the message line's ellipsis. */
  function PreviewHead(kind: string, message: string): string {
    PreviewIntro + AppreciationType(kind) + "\nMessage: " + Excerpt(message) + "..."
  }

  /** The reward block: absent without rewards, else a heading and one bullet line per reward. */
  function RewardList(rewards: seq<string>): string {
    if rewards == [] then "" else "\n\nRewards included:\n" + JoinLines(Bullets(rewards))
  }

  /**
   * The text of previewAppreciation's confirmation dialog: it names the
   * award, quotes the message excerpt and lists a bullet line for every
   * reward; without rewards it goes straight to the closing question.
   */
  function PreviewText(kind: string, message: string, rewards: seq<string>): (text: string)
    ensures Contains(text, AppreciationType(kind))
    ensures Contains(text, Excerpt(message))
    ensures forall i :: 0 <= i < |rewards| ==> Contains(text, Bullet(rewards[i]))
    ensures rewards == [] ==> text == PreviewHead(kind, message) + PreviewClosing
  {
    PreviewTextParts(kind, message, rewards);
    PreviewHead(kind, message) + RewardList(rewards) + PreviewClosing
  }

  lemma PreviewTextParts(kind: string, message: string, rewards: seq<string>)
    ensures Contains(PreviewHead(kind, message) + RewardList(rewards) + PreviewClosing, AppreciationType(kind))
    ensures Contains(PreviewHead(kind, message) + RewardList(rewards) + PreviewClosing, Excerpt(message))
    ensures forall i :: 0 <= i < |rewards| ==>
      Contains(PreviewHead(kind, message) + RewardList(rewards) + PreviewClosing, Bullet(rewards[i]))
    ensures rewards == [] ==>
      PreviewHead(kind, message) + RewardList(rewards) + PreviewClosing == PreviewHead(kind, message) + PreviewClosing
  {
    var head := PreviewHead(kind, message);
    if rewards == [] {
      assert head + RewardList(rewards) == head;
    }
    HeadParts(PreviewIntro, AppreciationType(kind), "\nMessage: ", Excerpt(message), "...", RewardList(rewards), PreviewClosing);
    forall i | 0 <= i < |rewards|
      ensures Contains(head + RewardList(rewards) + PreviewClosing, Bullet(rewards[i]))
    {
      ListedBullet(head, rewards, i);
    }
  }

  /** The dialog's second and fourth parts, the award name and the excerpt, are part of its text. */
  lemma HeadParts(a: string, name: string, b: string, excerpt: string, c: string, d: string, e: string)
    ensures Contains(a + name + b + excerpt + c + d + e, name)
    ensures Contains(a + name + b + excerpt + c + d + e, excerpt)
  {
    var s := a + name + b + excerpt + c + d + e;
    assert s[|a|..|a| + |name|] == name;
    assert OccursAt(s, name, |a|);
    var k := |a| + |name| + |b|;
    assert s[k..k + |excerpt|] == excerpt;
    assert OccursAt(s, excerpt, k);
  }

  lemma Regroup5(a: string, b: string, c: string, d: string)
    ensures a + b + c + d == a + (b + c + d)
  {
  }

  lemma ListedBullet(head: string, rewards: seq<string>, i: nat)
    requires i < |rewards|
    ensures Contains(head + RewardList(rewards) + PreviewClosing, Bullet(rewards[i]))
  {
    var heading, lines := "\n\nRewards included:\n", Bullets(rewards);
    assert RewardList(rewards) == heading + JoinLines(lines);
    Regroup4(head, heading, JoinLines(lines), PreviewClosing);
    LineWithin(head + heading, lines, PreviewClosing, i);
  }

  /** A line of a join is part of any text built around the join. */
  lemma LineWithin(a: string, lines: seq<string>, c: string, i: nat)
    requires i < |lines|
    ensures Contains(a + JoinLines(lines) + c, lines[i])
  {
    JoinLinesHas(lines, i);
    ContainsWithin(a, JoinLines(lines), c, lines[i]);
  }

  lemma Regroup4(a: string, b: string, c: string, d: string)
    ensures a + (b + c) + d == a + b + c + d
  {
  }

  /** One more reward adds its bullet at the end of the list, under the heading when it is the first. */
  lemma RewardListAppend(rewards: seq<string>, reward: string)
    ensures RewardList(rewards + [reward])
         == RewardList(rewards) + (if rewards == [] then "\n\nRewards included:\n" else "\n") + Bullet(reward)
  {
    var heading, lines := "\n\nRewards included:\n", Bullets(rewards);
    assert Bullets(rewards + [reward]) == lines + [Bullet(reward)];
    if rewards != [] {
      JoinLinesAppend(lines, Bullet(reward));
      Regroup5(heading, JoinLines(lines), "\n", Bullet(reward));
    } else {
      assert JoinLines([Bullet(reward)]) == Bullet(reward);
    }
  }

  /** A text ending in a closing part splits into the part before it and that part. */
  lemma BeforeClosing(head: string, closing: string)
    ensures var t := head + closing;
      && |t| >= |closing| && t[|t| - |closing|..] == closing && t[..|t| - |closing|] == head
  {
  }

  /**
   * Rewards are listed in page order: one more checked reward adds its
   * bullet line just before the closing question, under the heading when it
   * is the first.
   */
  lemma RewardLineAppended(kind: string, message: string, rewards: seq<string>, reward: string)
    ensures var t, t' := PreviewText(kind, message, rewards), PreviewText(kind, message, rewards + [reward]);
      && |t| >= |PreviewClosing| && t[|t| - |PreviewClosing|..] == PreviewClosing
      && t' == t[..|t| - |PreviewClosing|]
               + (if rewards == [] then "\n\nRewards included:\n" else "\n") + Bullet(reward) + PreviewClosing
  {
    var head := PreviewHead(kind, message);
    var sep := if rewards == [] then "\n\nRewards included:\n" else "\n";
    BeforeClosing(head + RewardList(rewards), PreviewClosing);
    RewardListAppend(rewards, reward);
    Regroup5(head, RewardList(rewards), sep, Bullet(reward));
  }

  /** The dialog quotes no more of the message than its first 100 characters: messages that agree there give the same dialog. */
  lemma SameExcerptSameDialog(kind: string, m1: string, m2: string, rewards: seq<string>)
    requires Excerpt(m1) == Excerpt(m2)
    ensures PreviewText(kind, m1, rewards) == PreviewText(kind, m2, rewards)
  {
  }

  /** What previewAppreciation leads to. */
  datatype PreviewOutcome = CertificateWindow | ConfirmDialog(text: string)

  /**
   * previewAppreciation: a checked certificate reward opens the certificate
   * preview instead; otherwise the dialog shows the kind's display name and
   * at most the first 100 characters of the message.
   */
  function Preview(options: seq<string>, active: seq<bool>, message: string,
                   rewards: seq<string>, checked: seq<bool>): (p: PreviewOutcome)
    requires |options| == |active| && |rewards| == |checked|
    ensures p.CertificateWindow? <==> exists i :: 0 <= i < |rewards| && checked[i] && rewards[i] == Certificate
    ensures p.ConfirmDialog? ==> p.text == PreviewText(SelectedKind(options, active), message, CheckedValues(rewards, checked))
    ensures p.ConfirmDialog? ==> Contains(p.text, AppreciationType(SelectedKind(options, active)))
    ensures p.ConfirmDialog? ==> Contains(p.text, Excerpt(message))
  {
    var values := CheckedValues(rewards, checked);
    if Certificate in values then CertificateWindow
    else
      ConfirmDialog(PreviewText(SelectedKind(options, active), message, values))
  }

  const DefaultStarCount := 47

  /**
   * The new count updateCivicStarStats writes: the old text plus one when it
   * reads as a non-zero number, else 48 (parseInt(...) || 47, plus one).
   */
  function NextCount(text: string): (n: int)
    ensures ParseInt(text).Some? && ParseInt(text).value != 0 ==> n == ParseInt(text).value + 1
    ensures ParseInt(text).None? || ParseInt(text).value == 0 ==> n == DefaultStarCount + 1
  {
    var current := match ParseInt(text)
      case Some(v) => if v != 0 then v else DefaultStarCount
      case None => DefaultStarCount;
    current + 1
  }

  /** A civic-star counter after a send: when it exists, its text becomes the next count's. */
  function Counted(counter: Option<string>): Option<string> {
    if counter.Some? then Some(NextCountText(counter.value)) else None
  }

  /** The text updateCivicStarStats writes back. */
  function NextCountText(text: string): string {
    DecimalString(NextCount(text))
  }

  /** The counter's new text reads back as the new count. */
  lemma NextCountReadsBack(text: string)
    ensures ParseInt(NextCountText(text)) == Some(NextCount(text))
  {
    ParseDecimal(NextCount(text));
  }

  /**
   * Once the counter shows a non-zero number, every further appreciation
   * sent raises it by exactly one.
   */
  lemma SendsCountUp(text: string)
    requires NextCount(text) != 0
    ensures NextCount(NextCountText(text)) == NextCount(text) + 1
  {
    NextCountReadsBack(text);
  }
}
