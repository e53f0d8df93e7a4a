/**
 * `epc_qr_payload`: the data of an EPC069-12 payment QR code (the European
 * Payments Council's "Quick Response Code: Guidelines to Enable Data Capture
 * for the Initiation of an SCT", data format version 002).
 */
module Epc {
  import opened Optional
  import opened Text
  import opened Decimals

  const NL: char := '\n'

  /** `iban.replace(" ", "")`. */
  function CompactIban(iban: string): string {
    ReplaceAll(iban, " ", "")
  }

  /** Reference definition: the characters of `s` other than `c`, in order. */
  function Without(s: string, c: char): string
    decreases |s|
  {
    if s == [] then [] else (if s[0] == c then [] else [s[0]]) + Without(s[1..], c)
  }

  /** Removing spaces keeps every other character in order and leaves no space. */
  lemma {:induction false} CompactIbanSpec(iban: string)
    ensures CompactIban(iban) == Without(iban, ' ')
    ensures ' ' !in CompactIban(iban)
    decreases |iban|
  {
    if iban != [] {
      var rest := iban[1..];
      assert iban == [iban[0]] + rest;
      ReplaceCharSplits([iban[0]], rest, ' ', "");
      assert [iban[0]][..1] == [iban[0]];
      CompactIbanSpec(rest);
    }
  }

  /** The eleven lines of the payload, in the order the guideline fixes. */
  function EpcFields(name: string, iban: string, amount: Decimal, remittance: string, bic: Option<string>): seq<string> {
    [ "BCD",                  // service tag
      "002",                  // version
      "1",                    // character set: UTF-8
      "SCT",                  // identification
      bic.GetOr(""),          // BIC, empty when there is none
      name,                   // beneficiary
      CompactIban(iban),      // account
      "EUR" + Money(amount),  // amount
      "",                     // purpose
      remittance,             // remittance information
      "" ]                    // beneficiary-to-originator information
  }

  /** `epc_qr_payload(name=…, iban=…, amount=…, remittance=…, bic=…)`: the fields joined by newlines. */
  function EpcQrPayload(name: string, iban: string, amount: Decimal, remittance: string, bic: Option<string>): string {
    Join(EpcFields(name, iban, amount, remittance, bic), NL)
  }

  /** The amount line never holds a newline. */
  lemma AmountLineNoNewline(amount: Decimal)
    ensures NL !in "EUR" + Money(amount)
  {
    MoneySpec(amount);
    var r := Money(amount);
    var line := "EUR" + r;
    forall i | 0 <= i < |line| ensures line[i] != NL {
      if i >= 3 {
        assert line[i] == r[i - 3] && IsAmountChar(r[i - 3]);
      }
    }
  }

  /** No line of the payload holds a newline when the free-text inputs hold none. */
  lemma EpcFieldsNoNewline(name: string, iban: string, amount: Decimal, remittance: string, bic: Option<string>)
    requires NL !in name && NL !in iban && NL !in remittance
    requires bic.Some? ==> NL !in bic.value
    ensures var fs := EpcFields(name, iban, amount, remittance, bic);
      forall i :: 0 <= i < |fs| ==> NL !in fs[i]
  {
    assert NL !in CompactIban(iban) by {
      if NL in CompactIban(iban) {
        ReplaceAllChars(iban, " ", "", NL);
      }
    }
    AmountLineNoNewline(amount);
  }

  /**
   * When the free-text inputs hold no newline, splitting the payload on
   * newlines gives back exactly its eleven fields, in order: "BCD", "002",
   * "1", "SCT", the BIC or "", the name, the IBAN without spaces, "EUR"
   * followed by the amount, "", the remittance text and "".
   */
  lemma EpcPayloadRoundTrip(name: string, iban: string, amount: Decimal, remittance: string, bic: Option<string>)
    requires NL !in name && NL !in iban && NL !in remittance
    requires bic.Some? ==> NL !in bic.value
    ensures Split(EpcQrPayload(name, iban, amount, remittance, bic), NL)
      == ["BCD", "002", "1", "SCT", if bic.Some? then bic.value else "", name,
          Without(iban, ' '), "EUR" + Money(amount), "", remittance, ""]
  {
    var fs := EpcFields(name, iban, amount, remittance, bic);
    CompactIbanSpec(iban);
    EpcFieldsNoNewline(name, iban, amount, remittance, bic);
    SplitJoin(fs, NL);
  }

  /** The account line holds no space, and the amount line reads "EUR" then `amount` rounded half-up to cents with a dot. */
  lemma EpcAccountAndAmount(name: string, iban: string, amount: Decimal, remittance: string, bic: Option<string>)
    ensures var fs := EpcFields(name, iban, amount, remittance, bic);
      && ' ' !in fs[6]
      && fs[7][..3] == "EUR"
      && ParseAmount(fs[7][3..]) == Some(Quantize(amount))
  {
    CompactIbanSpec(iban);
    var line := "EUR" + Money(amount);
    assert line[3..] == Money(amount);
    Format2Parses(Quantize(amount));
  }
}
