/** The message embed that account-checker.js builds from the two query results
    (account-checker.js lines 104-127): a fixed title and colour, a description that
    signals whether any account lacks a token, and one field about the ready accounts. */
module Report {
  import opened Wrappers
  import opened Accounts
  import opened Chars

  const Title: string := "ACCOUNTS CHECKER:"
  const Color: string := "#0099ff"

  /** The red circle U+1F534 and the green circle U+1F7E2 used as status marks. */
  const RedCircle: char := '\U{1F534}'
  const GreenCircle: char := '\U{1F7E2}'

  const ReadyFieldName: string := [GreenCircle] + " Ready to Use Accounts"
  const WarningFieldName: string := [RedCircle] + " Ready to Use Accounts (WARNING)"

  /** The embed as sent; the embed's timestamp is the clock's and is not modelled. */
  datatype Embed = Embed(
    title: string,
    color: string,
    description: string,
    fieldName: string,
    fieldValue: string)

  // ---------------------------------------------------------------------------------------
  // Decimal text of a count, as a template literal renders it
  // ---------------------------------------------------------------------------------------

  function DigitChar(d: nat): (c: char)
    requires d < 10
    ensures IsDigit(c) && c as int - '0' as int == d
  {
    (d + '0' as int) as char
  }

  /** The decimal digits of `n`, most significant first, with no leading zero. */
  function NatToString(n: nat): (s: string)
    ensures |s| >= 1
    ensures forall i :: 0 <= i < |s| ==> IsDigit(s[i])
    ensures s[0] == '0' ==> n == 0 && |s| == 1
    decreases n
  {
    if n < 10 then [DigitChar(n)] else NatToString(n / 10) + [DigitChar(n % 10)]
  }

  /** The number a string of decimal digits stands for. */
  function DecimalValue(s: string): nat
    requires forall i :: 0 <= i < |s| ==> IsDigit(s[i])
  {
    if s == [] then 0
    else
      assert IsDigit(s[|s| - 1]);
      DecimalValue(s[..|s| - 1]) * 10 + (s[|s| - 1] as int - '0' as int)
  }

  /** Reading the rendered digits back gives the number that was rendered. */
  lemma {:induction false} NatToStringRoundTrip(n: nat)
    ensures DecimalValue(NatToString(n)) == n
    decreases n
  {
    if n >= 10 {
      var s := NatToString(n);
      assert s[..|s| - 1] == NatToString(n / 10);
      NatToStringRoundTrip(n / 10);
    }
  }

  /** The text `${total}` of the ready query's `Total`: its digits, or "null" when the SUM
      was over no rows. */
  function TotalText(total: Option<nat>): string {
    if total.Some? then NatToString(total.value) else "null"
  }

  // ---------------------------------------------------------------------------------------
  // The description
  // ---------------------------------------------------------------------------------------

  const NoTokenPrefix: string := "There are "

  /** The description chosen at line 110 from the no-token count. */
  function Description(noTokensAccsCount: nat): string {
    if noTokensAccsCount > 0 then
      NoTokenPrefix + NatToString(noTokensAccsCount) + " accounts without token " + [RedCircle] + "\n"
    else
      "No accounts without token. " + [GreenCircle] + "\n"
  }

  /** The description carries the red mark exactly when some account lacks a token and the
      green mark exactly when none does; the comparison is `> 0`, so a count of 1 is red. */
  lemma DescriptionSignals(noTokensAccsCount: nat)
    ensures RedCircle in Description(noTokensAccsCount) <==> noTokensAccsCount > 0
    ensures GreenCircle in Description(noTokensAccsCount) <==> noTokensAccsCount == 0
  {
  }

  /** When some account lacks a token, the number in the description reads back as the count. */
  lemma DescriptionShowsCount(noTokensAccsCount: nat)
    requires noTokensAccsCount > 0
    ensures var d := Description(noTokensAccsCount);
            var k := |NatToString(noTokensAccsCount)|;
            |d| > |NoTokenPrefix| + k &&
            d[..|NoTokenPrefix|] == NoTokenPrefix &&
            (forall i :: |NoTokenPrefix| <= i < |NoTokenPrefix| + k ==> IsDigit(d[i])) &&
            DecimalValue(d[|NoTokenPrefix|..|NoTokenPrefix| + k]) == noTokensAccsCount &&
            d[|NoTokenPrefix|] != '0' &&
            d[|NoTokenPrefix| + k..] == " accounts without token " + [RedCircle] + "\n"
  {
    var digits := NatToString(noTokensAccsCount);
    var tail := " accounts without token " + [RedCircle] + "\n";
    var d := Description(noTokensAccsCount);
    var k := |digits|;
    assert d == NoTokenPrefix + digits + tail;
    assert d[..|NoTokenPrefix|] == NoTokenPrefix;
    assert d[|NoTokenPrefix|..|NoTokenPrefix| + k] == digits;
    assert d[|NoTokenPrefix| + k..] == tail;
    assert d[|NoTokenPrefix|] == digits[0];
    NatToStringRoundTrip(noTokensAccsCount);
  }

  // ---------------------------------------------------------------------------------------
  // The ready field and the comparison at line 117
  // ---------------------------------------------------------------------------------------

  /** A JavaScript number, as far as the relational comparisons here need one. */
  datatype JsNumber = Finite(value: int) | NaN

  /** `x > k` in JavaScript: false whenever either side is NaN. */
  predicate JsGreaterThan(x: JsNumber, k: int) {
    x.Finite? && x.value > k
  }

  /** ToNumber of the result array `readyToUseAccs`, as `>` applies it: the array becomes the
      comma-joined text of its elements, each row object giving "[object Object]"; the empty
      text is 0 and any other such text is NaN. */
  function RowArrayToNumber(readyToUseAccs: seq<TotalRow>): (x: JsNumber)
    ensures x.NaN? <==> |readyToUseAccs| > 0
    ensures |readyToUseAccs| == 0 ==> x == Finite(0)
  {
    if |readyToUseAccs| == 0 then Finite(0) else NaN
  }

  /** ToNumber of the row's `Total`: the driver gives the SUM as decimal text, which reads as
      its value, and NULL, which reads as 0. */
  function TotalToNumber(total: Option<nat>): (x: JsNumber)
    ensures total.Some? ==> x == Finite(total.value)
    ensures total.None? ==> x == Finite(0)
  {
    if total.Some? then Finite(total.value) else Finite(0)
  }

  /** The field title as written at line 117: the result array, not the total, is compared
      with 5. */
  function ReadyFieldNameAsWritten(readyToUseAccs: seq<TotalRow>): string {
    if JsGreaterThan(RowArrayToNumber(readyToUseAccs), 5) then ReadyFieldName else WarningFieldName
  }

  /** The field title with the comparison the code evidently means: `readyToUseAccsCount > 5`. */
  function ReadyFieldNameIntended(total: Option<nat>): string {
    if JsGreaterThan(TotalToNumber(total), 5) then ReadyFieldName else WarningFieldName
  }

  /** As written, the title is the warning one for every result set. */
  lemma ReadyFieldNameAlwaysWarning(readyToUseAccs: seq<TotalRow>)
    ensures ReadyFieldNameAsWritten(readyToUseAccs) == WarningFieldName
  {
  }

  /** A concrete result that shows the difference: six ready accounts still get the warning. */
  lemma ReadyFieldNameDiscrepancy()
    ensures ReadyFieldNameAsWritten([TotalRow(Some(6))]) == WarningFieldName
    ensures ReadyFieldNameIntended(Some(6)) == ReadyFieldName
  {
  }

  /** The intended title is the green one exactly when more than five accounts are ready. */
  lemma ReadyFieldNameIntendedSpec(total: Option<nat>)
    ensures ReadyFieldNameIntended(total) == ReadyFieldName <==> total.Some? && total.value > 5
    ensures ReadyFieldNameIntended(total) == WarningFieldName <==> total.None? || total.value <= 5
  {
    assert ReadyFieldName[0] != WarningFieldName[0];
  }

  const ReadySuffix: string := " accounts are ready to use"

  /** The field body `${readyToUseAccsCount} accounts are ready to use`. */
  function ReadyFieldValue(total: Option<nat>): string {
    TotalText(total) + ReadySuffix
  }

  /** The field body names the ready total: its digits read back as the total, or "null". */
  lemma ReadyFieldValueShowsTotal(total: Option<nat>)
    ensures var v := ReadyFieldValue(total);
            var k := |v| - |ReadySuffix|;
            |v| > |ReadySuffix| && v[k..] == ReadySuffix &&
            (total.None? ==> v[..k] == "null") &&
            (total.Some? ==> (forall i :: 0 <= i < k ==> IsDigit(v[i])) &&
                             (v[0] == '0' ==> total.value == 0 && k == 1) &&
                             DecimalValue(v[..k]) == total.value)
  {
    var v := ReadyFieldValue(total);
    var k := |v| - |ReadySuffix|;
    assert v[..k] == TotalText(total);
    if total.Some? {
      NatToStringRoundTrip(total.value);
    }
  }

  // ---------------------------------------------------------------------------------------
  // The embed
  // ---------------------------------------------------------------------------------------

  /** The embed built at lines 104-127 from the two result sets; the code reads row 0 of
      each, so both must be non-empty (an aggregate query always returns one row). */
  function BuildEmbed(noTokensAccs: seq<CountRow>, readyToUseAccs: seq<TotalRow>): Embed
    requires |noTokensAccs| > 0 && |readyToUseAccs| > 0
  {
    Embed(Title, Color,
          Description(noTokensAccs[0].count),
          ReadyFieldNameAsWritten(readyToUseAccs),
          ReadyFieldValue(readyToUseAccs[0].total))
  }

  /** The embed for a table of accounts: the description is red exactly when some account has
      an empty token, the field title is always the warning one, and the field body shows the
      ready total. */
  lemma EmbedForAccounts(accounts: seq<Account>, now: int)
    ensures var e := BuildEmbed(NoTokenRows(accounts), ReadyToUseRows(accounts, now));
            e.title == Title && e.color == Color &&
            (RedCircle in e.description <==>
               exists i :: 0 <= i < |accounts| && HasNoToken(accounts[i])) &&
            (GreenCircle in e.description <==>
               forall i :: 0 <= i < |accounts| ==> !HasNoToken(accounts[i])) &&
            e.fieldName == WarningFieldName &&
            e.fieldValue == ReadyFieldValue(ReadyTotal(accounts, now))
  {
    DescriptionSignals(NoTokenCount(accounts));
    NoTokenCountPositive(accounts);
  }
}
