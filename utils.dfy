/** The pure helpers of client/src/lib/utils.ts: masking a document number, initials of a
    name, and the two constant tables the pages offer. */
module Utils {
  import opened Optional
  import opened Seqs
  import opened Strings

  function Min(a: int, b: int): int {
    if a <= b then a else b
  }

  function Max(a: int, b: int): int {
    if a <= b then b else a
  }

  /** `maskText(text, visibleChars = 3)`: a text that is empty or no longer than
      `visibleChars` is shown as it is; otherwise the first `visibleChars` characters are
      kept and the rest becomes at most three '*'. A negative `visibleChars` counts from the
      end, as `slice` does. */
  function MaskText(text: string, visibleChars: int := 3): (r: string)
    ensures text == "" || |text| <= visibleChars ==> r == text
    ensures text != "" && |text| > visibleChars ==>
              var keep := if visibleChars < 0 then Max(0, |text| + visibleChars) else visibleChars;
              && |r| == keep + Min(|text| - visibleChars, 3)
              && r[..keep] == text[..keep]
              && forall i :: keep <= i < |r| ==> r[i] == '*'
    ensures 0 <= visibleChars ==> |r| <= visibleChars + 3 && |r| <= |text|
  {
    if text == "" || |text| <= visibleChars then text
    else
      SliceTo(text, visibleChars) + Repeat('*', Min(|text| - visibleChars, 3))
  }

  /** Masking an already masked text changes nothing. */
  lemma MaskTextIdempotent(text: string, visibleChars: int)
    requires 0 <= visibleChars
    ensures MaskText(MaskText(text, visibleChars), visibleChars) == MaskText(text, visibleChars)
  {
    var r := MaskText(text, visibleChars);
    if !(text == "" || |text| <= visibleChars) {
      var r2 := MaskText(r, visibleChars);
      assert |r2| == |r|;
      assert forall i :: 0 <= i < |r| ==> r2[i] == r[i];
    }
  }

  /** A space-separated part that is not empty: the ones `getInitials` takes a letter from. */
  function IsWord(part: string): bool {
    part != ""
  }

  /** `parts.map(part => part[0]?.toUpperCase() || '').join('')`: the upper-cased first
      character of every part, an empty part contributing nothing. */
  function Initials(parts: seq<string>): (r: string)
    ensures |r| == |Filter(parts, IsWord)|
    ensures forall i :: 0 <= i < |r| ==> r[i] == UpperChar(Filter(parts, IsWord)[i][0])
  {
    if parts == [] then ""
    else
      var rest := Initials(parts[1..]);
      assert Filter(parts, IsWord) == (if IsWord(parts[0]) then [parts[0]] else []) + Filter(parts[1..], IsWord);
      if parts[0] == "" then rest else [UpperChar(parts[0][0])] + rest
  }

  /** `getInitials(name)`: the upper-cased first letters of the first two words, in order. */
  function GetInitials(name: string): (r: string)
    ensures |r| <= 2
    ensures name == "" ==> r == ""
    ensures var words := Filter(Split(name, ' '), IsWord);
            && |r| == Min(2, |words|)
            && forall i :: 0 <= i < |r| ==> r[i] == UpperChar(words[i][0])
  {
    if name == "" then "" else SliceTo(Initials(Split(name, ' ')), 2)
  }

  /** The document types a user can pick (`documentTypes`). */
  const DocumentTypes: seq<string> := ["ID Card", "Driver's License", "Passport", "Bank Card"]

  /** One entry of `subscriptionPlans`; the price is left out. */
  datatype Plan = Plan(
    id: string,
    name: string,
    frequency: string,
    description: string,
    features: seq<string>,
    discount: string)

  const SubscriptionPlans: seq<Plan> := [
    Plan("free", "Free Plan", "free", "Limited to ID cards only",
         ["ID card storage only", "Basic lost document alerts", "Limited chat functionality"], ""),
    Plan("monthly", "Premium Plan", "month", "Full access to all features",
         ["Unlimited document storage", "Priority lost document alerts", "Direct chat with document finders"], ""),
    Plan("yearly", "Annual Plan", "year", "Full access at a discount",
         ["All Premium Plan features", "Bonus 100 reward points", "Enhanced document security"], "33%")
  ]

  /** `subscriptionPlans.find(p => p.id === planId)`. */
  function FindPlan(planId: string): (r: Option<Plan>)
    ensures r.Some? <==> planId in {"free", "monthly", "yearly"}
    ensures r.Some? ==> r.value in SubscriptionPlans && r.value.id == planId
  {
    Find(SubscriptionPlans, (p: Plan) => p.id == planId)
  }
}
