/** The bank-transfer QR setup on the profile page: the QR payload
    `code|account|holder`, the guard on saving, and regeneration on load. */
module BankQr {
  import opened Base
  import opened Ledger
  import opened Text

  /** The bank columns of a profile row; each may be SQL null. */
  datatype BankProfile = BankProfile(bankName: Option<string>, accountNumber: Option<string>, accountHolder: Option<string>)

  /** The component's state: the three inputs and the current QR text. */
  datatype BankState = BankState(bankCode: string, accountNumber: string, accountHolder: string, qrValue: string)

  /** `generateQR`: the three fields separated by '|'. */
  function Payload(code: string, account: string, holder: string): string
  {
    code + "|" + account + "|" + holder
  }

  /** Splitting the payload on '|' gives the three fields back, provided no
      field contains a '|'; an empty holder leaves the payload ending in '|'. */
  lemma PayloadRoundTrip(code: string, account: string, holder: string)
    requires '|' !in code && '|' !in account && '|' !in holder
    ensures SplitOn(Payload(code, account, holder), '|') == [code, account, holder]
    ensures holder == "" ==> Payload(code, account, holder)[|Payload(code, account, holder)| - 1] == '|'
  {
    assert "|" == ['|'];
    var rest := account + "|" + holder;
    assert Payload(code, account, holder) == code + ['|'] + rest;
    SplitOnCons(code, '|', rest);
    assert rest == account + ['|'] + holder;
    SplitOnCons(account, '|', holder);
    SplitOnAbsent(holder, '|');
  }

  /** A field containing '|' makes the payload ambiguous: these two different
      accounts produce the same QR text. */
  lemma PayloadAmbiguousWithBar()
    ensures Payload("970405", "12|3", "A") == Payload("970405", "12", "3|A")
  {
  }

  /** `value || ""`: null and "" both read as empty. */
  function OrEmpty(v: Option<string>): string
  {
    match v
    case Some(s) => s
    case None => ""
  }

  /** A template literal `${v}`: null is rendered as the text "null". */
  function TemplateText(v: Option<string>): string
  {
    match v
    case Some(s) => s
    case None => "null"
  }

  /** `loadBankInfo`: with a signed-in user and a profile row, the inputs are
      filled from it, and a QR is generated only when both the bank and the
      account number are non-empty; the holder goes into the payload raw. */
  function Load(st: BankState, user: Option<UserId>, profile: Option<BankProfile>): (r: BankState)
    ensures user.None? || profile.None? ==> r == st
    ensures user.Some? && profile.Some? ==>
      var p := profile.value;
      && r.bankCode == OrEmpty(p.bankName)
      && r.accountNumber == OrEmpty(p.accountNumber)
      && r.accountHolder == OrEmpty(p.accountHolder)
      && (OrEmpty(p.bankName) != "" && OrEmpty(p.accountNumber) != "" ==>
            r.qrValue == Payload(p.bankName.value, p.accountNumber.value, TemplateText(p.accountHolder)))
      && (OrEmpty(p.bankName) == "" || OrEmpty(p.accountNumber) == "" ==> r.qrValue == st.qrValue)
  {
    if user.None? || profile.None? then st
    else
      var p := profile.value;
      var filled := st.(bankCode := OrEmpty(p.bankName), accountNumber := OrEmpty(p.accountNumber),
                        accountHolder := OrEmpty(p.accountHolder));
      if OrEmpty(p.bankName) != "" && OrEmpty(p.accountNumber) != "" then
        filled.(qrValue := Payload(p.bankName.value, p.accountNumber.value, TemplateText(p.accountHolder)))
      else filled
  }

  datatype SaveError = MissingBankFields | NoSignedInUser | UpdateFailed

  /** The columns `handleSave` writes to the user's profile. */
  datatype BankUpdate = BankUpdate(bankName: string, accountNumber: string, accountHolder: string)

  /** `handleSave`: rejected with no write unless both bank and account number
      are filled; then it needs a signed-in user and a successful update, after
      which the QR is rebuilt from exactly the saved values. */
  function Save(st: BankState, user: Option<UserId>, updateSucceeds: bool): (r: Result<(BankUpdate, BankState), SaveError>)
    ensures (r.Failure? && r.error == MissingBankFields) <==> st.bankCode == "" || st.accountNumber == ""
    ensures r.Success? <==> st.bankCode != "" && st.accountNumber != "" && user.Some? && updateSucceeds
    ensures r.Success? ==>
      var (u, st') := r.value;
      && u == BankUpdate(st.bankCode, st.accountNumber, st.accountHolder)
      && st'.qrValue == Payload(u.bankName, u.accountNumber, u.accountHolder)
      && st'.bankCode == st.bankCode && st'.accountNumber == st.accountNumber
      && st'.accountHolder == st.accountHolder
  {
    if st.bankCode == "" || st.accountNumber == "" then Failure(MissingBankFields)
    else if user.None? then Failure(NoSignedInUser)
    else if !updateSucceeds then Failure(UpdateFailed)
    else
      var u := BankUpdate(st.bankCode, st.accountNumber, st.accountHolder);
      Success((u, st.(qrValue := Payload(st.bankCode, st.accountNumber, st.accountHolder))))
  }

  /** Reloading the page after a successful save shows the same inputs and the
      same QR as right after saving. */
  lemma LoadAfterSave(st: BankState, user: UserId, other: BankState)
    requires Save(st, Some(user), true).Success?
    ensures
      var (u, saved) := Save(st, Some(user), true).value;
      Load(other, Some(user), Some(BankProfile(Some(u.bankName), Some(u.accountNumber), Some(u.accountHolder)))) == saved
  {
  }

  /** A saved QR, read back by splitting on '|', names the saved bank, account
      and holder when none of them contains a '|'. */
  lemma SavedQrReadsBack(st: BankState, user: UserId)
    requires Save(st, Some(user), true).Success?
    requires '|' !in st.bankCode && '|' !in st.accountNumber && '|' !in st.accountHolder
    ensures SplitOn(Save(st, Some(user), true).value.1.qrValue, '|') == [st.bankCode, st.accountNumber, st.accountHolder]
  {
    PayloadRoundTrip(st.bankCode, st.accountNumber, st.accountHolder);
  }
}
