/**
 * The payment-link form: a dynamically keyed record of form values, the
 * accepted-methods toggle, and the link strings built from a random id.
 */
module PaymentLink {
  import opened Wrappers
  import opened Seqs
  import opened JsText

  /** The kinds of value the form record holds. */
  datatype Value = Text(s: string) | Flag(b: bool) | Number(n: int) | Methods(ms: seq<string>) | Record

  /** `linkData`: field name to value; `handleInputChange` may write any key. */
  type LinkData = map<string, Value>

  const InitialLinkData: LinkData := map[
    "amount" := Text(""), "currency" := Text("USD"), "description" := Text(""),
    "customerName" := Text(""), "customerEmail" := Text(""), "allowCustomAmount" := Flag(false),
    "minAmount" := Text(""), "maxAmount" := Text(""), "expiryEnabled" := Flag(false),
    "expiryDays" := Number(7), "expiryDate" := Text(""), "limitEnabled" := Flag(false),
    "usageLimit" := Number(1), "paymentMethods" := Methods(["card", "bank", "mobile_money", "crypto"]),
    "collectShipping" := Flag(false), "sendReceipt" := Flag(true), "redirectUrl" := Text(""),
    "metadata" := Record
  ]

  /** `handleInputChange(field, value)`: that field takes the value and every other field is kept. */
  function HandleInputChange(d: LinkData, field: string, v: Value): (r: LinkData)
    ensures field in r && r[field] == v
    ensures r.Keys == d.Keys + {field}
    ensures forall k <- d :: k != field ==> r[k] == d[k]
  {
    d[field := v]
  }

  /** A number field edited through a text input holds the input's string afterwards. */
  lemma ExpiryDaysBecomesText()
    ensures HandleInputChange(InitialLinkData, "expiryDays", Text("7"))["expiryDays"] != InitialLinkData["expiryDays"]
  {
  }

  /** The toggle: every occurrence removed when present, appended at the end when absent. */
  function ToggleMethod(ms: seq<string>, m: string): (r: seq<string>)
    ensures m in r <==> m !in ms
    ensures forall x :: x != m ==> (x in r <==> x in ms)
    ensures m !in ms ==> |r| == |ms| + 1 && r[..|ms|] == ms
    ensures m in ms ==> r == Filter(ms, (x: string) => x != m)
    ensures m in ms ==> forall x :: multiset(r)[x] == if x == m then 0 else multiset(ms)[x]
  {
    if m in ms then
      FilterCounts(ms, (x: string) => x != m);
      Filter(ms, (x: string) => x != m)
    else ms + [m]
  }

  /** Toggling twice restores every method's membership. */
  lemma ToggleTwiceMembership(ms: seq<string>, m: string)
    ensures forall x :: x in ToggleMethod(ToggleMethod(ms, m), m) <==> x in ms
  {
  }

  /** Toggling an absent method twice gives back exactly the original list. */
  lemma ToggleTwiceAbsent(ms: seq<string>, m: string)
    requires m !in ms
    ensures ToggleMethod(ToggleMethod(ms, m), m) == ms
  {
    FilterAppend(ms, [m], (x: string) => x != m);
    FilterKeepsAll(ms, (x: string) => x != m);
    assert Filter([m], (x: string) => x != m) == [];
  }

  /** Toggling a present method twice moves it to the end, so the order is not restored. */
  lemma ToggleTwiceReorders()
    ensures ToggleMethod(ToggleMethod(["card", "bank"], "card"), "card") == ["bank", "card"]
  {
    var notCard := (x: string) => x != "card";
    assert Filter(["card", "bank"], notCard) == Filter(["bank"], notCard);
    assert Filter(["bank"], notCard) == ["bank"] + Filter([], notCard);
  }

  /** `togglePaymentMethod(m)`: only the accepted-methods field changes. */
  function TogglePaymentMethod(d: LinkData, m: string): (r: LinkData)
    requires "paymentMethods" in d && d["paymentMethods"].Methods?
    ensures r.Keys == d.Keys
    ensures r["paymentMethods"] == Methods(ToggleMethod(d["paymentMethods"].ms, m))
    ensures forall k <- d :: k != "paymentMethods" ==> r[k] == d[k]
  {
    d["paymentMethods" := Methods(ToggleMethod(d["paymentMethods"].ms, m))]
  }

  // ---------------------------------------------------------------------------
  // Link strings
  // ---------------------------------------------------------------------------

  /**
   * JavaScript's `s.substr(start, length)`: a negative start counts from the
   * end (and stops at 0), an omitted length (`None`) runs to the end, and a
   * length that is not positive gives the empty string.
   */
  function Substr(s: string, start: int, length: Option<int>): (r: string)
    ensures |r| <= |s|
    ensures var from := if start < 0 then (if |s| + start < 0 then 0 else |s| + start) else start;
            from <= |s| ==> from + |r| <= |s| && r == s[from..from + |r|]
    ensures length.Some? ==> |r| <= (if length.value < 0 then 0 else length.value)
  {
    var from := if start < 0 then (if |s| + start < 0 then 0 else |s| + start) else start;
    if from >= |s| then ""
    else
      var count := match length case None => |s| - from case Some(n) => if n < 0 then 0 else n;
      var to := if from + count > |s| then |s| else from + count;
      s[from..to]
  }

  lemma SubstrLast(s: string, k: nat)
    requires 1 <= k <= |s|
    ensures Substr(s, -(k as int), None) == s[|s| - k..]
  {
  }

  const FullPrefix: string := "https://pay.chainflow.com/"
  const ShortPrefix: string := "https://cf.link/"
  const QrPlaceholder: string := "data:image/png;base64,iVBORw0KGgoAAAANSUhEUgAAAAEAAAABCAYAAAAfFcSJAAAADUlEQVR42mNk+M9QDwADhgGAWjR9awAAAABJRU5ErkJggg=="

  /** The link id: "plink_" and up to nine characters of the random string after its first two (the "0."). */
  function LinkId(random: string): (id: string)
    ensures 6 <= |id| <= 15
    ensures id[..6] == "plink_"
  {
    "plink_" + Substr(random, 2, Some(9))
  }

  function FullLink(id: string): string {
    FullPrefix + id
  }

  function ShortLink(id: string): string {
    ShortPrefix + Substr(id, -6, None)
  }

  /** The full link carries the whole id, and the short link the id's last six characters. */
  lemma LinkShapes(random: string)
    ensures var id := LinkId(random);
            FullLink(id)[|FullPrefix|..] == id && |FullLink(id)| == |FullPrefix| + |id| &&
            ShortLink(id) == ShortPrefix + id[|id| - 6..] && |ShortLink(id)| == |ShortPrefix| + 6
    ensures var id := LinkId(random);
            StartsWith(FullLink(id), FullPrefix + "plink_") && StartsWith(ShortLink(id), ShortPrefix) &&
            ShortLink(id)[|ShortPrefix|..] == FullLink(id)[|FullLink(id)| - 6..]
  {
    var id := LinkId(random);
    SubstrLast(id, 6);
    var full, short := FullLink(id), ShortLink(id);
    assert full[..|FullPrefix| + 6] == FullPrefix + id[..6];
    assert full[|full| - 6..] == id[|id| - 6..];
    assert short[..|ShortPrefix|] == ShortPrefix;
    assert short[|ShortPrefix|..] == id[|id| - 6..];
  }

  /** With a random string of at most two characters the id is just "plink_", and the short link repeats it. */
  lemma ShortRandom(random: string)
    requires |random| <= 2
    ensures LinkId(random) == "plink_" && ShortLink(LinkId(random)) == ShortPrefix + "plink_"
  {
    SubstrLast("plink_", 6);
  }

  /** The form's whole state. */
  datatype LinkState = LinkState(
    step: int, linkData: LinkData, generatedLink: string, shortUrl: string, qrCode: string)

  const Initial: LinkState := LinkState(1, InitialLinkData, "", "", "")

  /** `handleGenerateLink`, with `Math.random().toString(36)` passed in as `random`: the links are set and the form moves to step 4. */
  function GenerateLink(st: LinkState, random: string): (st': LinkState)
    ensures st'.step == 4 && st'.linkData == st.linkData && st'.qrCode == QrPlaceholder
    ensures StartsWith(st'.generatedLink, FullPrefix + "plink_")
    ensures StartsWith(st'.shortUrl, ShortPrefix) && |st'.shortUrl| == |ShortPrefix| + 6
    ensures st'.shortUrl[|ShortPrefix|..] == st'.generatedLink[|st'.generatedLink| - 6..]
  {
    var id := LinkId(random);
    LinkShapes(random);
    assert FullLink(id) == FullPrefix + id;
    LinkState(4, st.linkData, FullLink(id), ShortLink(id), QrPlaceholder)
  }
}
