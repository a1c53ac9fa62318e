/** The JSON text behind the lengths of the context budget (assistant.py:345-386): compact JSON puts commas
    between the elements of a list and nothing else, so that lengths add up. */
module PromptText {
  import opened Prelude
  import opened ContextBudget

  /** The first n texts with commas between them. */
  function Joined(texts: seq<string>, n: nat): string
    requires n <= |texts|
  {
    if n == 0 then [] else if n == 1 then texts[0] else Joined(texts, n - 1) + "," + texts[n - 1]
  }

  function ListText(texts: seq<string>, n: nat): string
    requires n <= |texts|
  {
    "[" + Joined(texts, n) + "]"
  }

  /** The sizes of the records are the lengths of their texts. */
  ghost predicate Measures(q: seq<Record>, texts: seq<string>) {
    |q| == |texts| && forall i :: 0 <= i < |q| ==> q[i].size == |texts[i]|
  }

  lemma {:induction false} ListLengthIsWritten(q: seq<Record>, texts: seq<string>, n: nat)
    requires Measures(q, texts) && n <= |q|
    ensures |ListText(texts, n)| == ListLength(q, n)
    decreases n
  {
    if n == 1 {
      assert SumTo(q, 1) == SumTo(q, 0) + q[0].size;
    } else if n > 1 {
      ListLengthIsWritten(q, texts, n - 1);
    }
  }

  // --- The context ---

  /** The text before, between and after the record lists: the keys, the supplied counts and the kinds
      without records, which packing does not change. */
  type Skin = seq<string>

  /** The first n kinds, each with as many records as counted. */
  function KindsText(skin: Skin, lists: seq<seq<string>>, counts: seq<nat>, n: nat): string
    requires n <= |lists| == |counts| && n < |skin|
    requires forall k :: 0 <= k < |counts| ==> counts[k] <= |lists[k]|
  {
    if n == 0 then skin[0]
    else KindsText(skin, lists, counts, n - 1) + ListText(lists[n - 1], counts[n - 1]) + skin[n]
  }

  function SkinLength(skin: Skin, n: nat): nat
    requires n < |skin|
  {
    |skin[n]| + (if n == 0 then 0 else SkinLength(skin, n - 1))
  }

  /** The problem of packing these texts. */
  ghost predicate Describes(p: Problem, skin: Skin, lists: seq<seq<string>>) {
    && |p.queues| == |lists| == |skin| - 1 && p.frame == SkinLength(skin, |lists|)
    && forall k :: 0 <= k < |lists| ==> Measures(p.queues[k], lists[k])
  }

  lemma {:induction false} KindsLength(
    p: Problem, skin: Skin, lists: seq<seq<string>>, counts: seq<nat>, n: nat)
    requires Describes(p, skin, lists) && Fits(p, counts) && n <= |lists|
    ensures |KindsText(skin, lists, counts, n)| == SkinLength(skin, n) + ListsTo(p, counts, n)
    decreases n
  {
    if n > 0 {
      KindsLength(p, skin, lists, counts, n - 1);
      ListLengthIsWritten(p.queues[n - 1], lists[n - 1], counts[n - 1]);
    }
  }

  function ContextText(skin: Skin, lists: seq<seq<string>>, counts: seq<nat>): string
    requires |lists| == |counts| && |lists| < |skin|
    requires forall k :: 0 <= k < |counts| ==> counts[k] <= |lists[k]|
  {
    KindsText(skin, lists, counts, |lists|)
  }

  /** serialized_size is the length of the context's text. */
  lemma SizeIsWritten(p: Problem, skin: Skin, lists: seq<seq<string>>, counts: seq<nat>)
    requires Describes(p, skin, lists) && Fits(p, counts)
    ensures |ContextText(skin, lists, counts)| == Size(p, counts)
  {
    KindsLength(p, skin, lists, counts, |lists|);
  }

  // --- The payload ---

  function PayloadText(context: string, sources: seq<string>, n: nat): string
    requires n <= |sources|
  {
    "{\"context\":" + context + ",\"source_records\":" + ListText(sources, n) + "}"
  }

  function ReserveText(sources: seq<string>): string {
    "{\"source_records\":" + ListText(sources, |sources|) + "}"
  }

  lemma PayloadLengthIsWritten(context: string, sources: seq<Record>, texts: seq<string>, n: nat)
    requires Measures(sources, texts) && n <= |sources|
    ensures |PayloadText(context, texts, n)| == PayloadLength(|context|, sources, n)
  {
    ListLengthIsWritten(sources, texts, n);
  }

  /** The context may be as long as the cap leaves beside the sources, but 200 characters at least. */
  lemma ReserveIsWritten(cap: int, sources: seq<Record>, texts: seq<string>)
    requires Measures(sources, texts)
    ensures var left := cap - |ReserveText(texts)|;
            ContextLimit(cap, sources) == if left < 200 then 200 else left
  {
    ListLengthIsWritten(sources, texts, |texts|);
  }

  /** The prompt's payload itself, with the packed records and the most sources that fit: it meets its cap
      exactly if the packed context leaves 32 characters. */
  lemma WrittenPayloadMeetsCapIff(
    p: Problem, skin: Skin, lists: seq<seq<string>>, sources: seq<Record>, texts: seq<string>, cap: int, kept: nat)
    requires Describes(p, skin, lists) && Measures(sources, texts) && kept <= |sources|
    requires MostSources(Size(p, Packed(p)), sources, cap, kept)
    ensures var text := PayloadText(ContextText(skin, lists, Packed(p)), texts, kept);
            |text| <= cap <==> Size(p, Packed(p)) + 32 <= cap
  {
    SizeIsWritten(p, skin, lists, Packed(p));
    PayloadLengthIsWritten(ContextText(skin, lists, Packed(p)), sources, texts, kept);
    CapIsMetIff(Size(p, Packed(p)), sources, cap, kept);
  }
}
