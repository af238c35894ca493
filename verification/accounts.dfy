/** The Account record: its schema constraints, its defaults, balance changes and its JSON form. */
module Accounts {
  import opened Common

  /** A stored account. `id` and `version` are the database's `_id` and `__v`. */
  datatype Account = Account(
    id: string,
    version: nat,
    name: string,
    number: string,
    userId: string,
    balance: int,
    currency: string)

  const DefaultName: string := "main"
  const DefaultBalance: int := 10000
  const DefaultCurrency: string := "EUR"

  const MinNameLength: nat := 2
  const MaxNameLength: nat := 255
  const MinNumberLength: nat := 11
  const MaxNumberLength: nat := 255

  /** Length of an md5 digest written in hexadecimal, the suffix of a generated account number. */
  const DigestLength: nat := 32

  /** The schema's validators: a required name of 2..255 characters, a number of 11..255
      characters, a required non-negative balance and a required (non-empty) currency. */
  predicate Valid(a: Account) {
    && MinNameLength <= |a.name| <= MaxNameLength
    && MinNumberLength <= |a.number| <= MaxNumberLength
    && a.balance >= 0
    && a.currency != ""
  }

  /** The fields a caller may supply when creating an account; `None` means "not given". */
  datatype AccountInput = AccountInput(
    name: Option<string>,
    number: Option<string>,
    userId: string,
    balance: Option<int>,
    currency: Option<string>)

  /** A new account with the schema defaults filled in. The default number is the bank's
      prefix followed by a hex digest, which stands for md5 of the creation time. */
  function WithDefaults(input: AccountInput, id: string, bankPrefix: string, digest: string): (a: Account)
    ensures a.id == id && a.version == 0 && a.userId == input.userId
    ensures input.name.Some? ==> a.name == input.name.value
    ensures input.name.None? ==> a.name == DefaultName
    ensures input.number.Some? ==> a.number == input.number.value
    ensures input.number.None? ==> bankPrefix <= a.number && a.number[|bankPrefix|..] == digest
    ensures input.balance.Some? ==> a.balance == input.balance.value
    ensures input.balance.None? ==> a.balance == DefaultBalance
    ensures input.currency.Some? ==> a.currency == input.currency.value
    ensures input.currency.None? ==> a.currency == DefaultCurrency
  {
    Account(
      id, 0,
      input.name.GetOr(DefaultName),
      input.number.GetOr(bankPrefix + digest),
      input.userId,
      input.balance.GetOr(DefaultBalance),
      input.currency.GetOr(DefaultCurrency))
  }

  /** An account created with every default passes the schema's validators, and the bank
      prefix read back from its number is the bank's own prefix. */
  lemma DefaultAccountIsValid(userId: string, id: string, bankPrefix: string, digest: string)
    requires |bankPrefix| == BankPrefixLength && |digest| == DigestLength
    ensures var a := WithDefaults(AccountInput(None, None, userId, None, None), id, bankPrefix, digest);
            Valid(a) && Prefix(a.number) == bankPrefix && a.balance == 10000
  {
    PrefixOfPrefixed(bankPrefix, digest);
  }

  /** Adds `amount` to the balance. A non-negative credit keeps a valid account valid. */
  function Credit(a: Account, amount: int): (b: Account)
    ensures b.balance - a.balance == amount
    ensures b.(balance := a.balance) == a
    ensures Valid(a) && amount >= 0 ==> Valid(b)
  {
    a.(balance := a.balance + amount)
  }

  /** Subtracts `amount` from the balance. A debit the balance covers keeps a valid account valid. */
  function Debit(a: Account, amount: int): (b: Account)
    ensures a.balance - b.balance == amount
    ensures b.(balance := a.balance) == a
    ensures Valid(a) && amount <= a.balance ==> Valid(b)
  {
    a.(balance := a.balance - amount)
  }

  /** A JSON field value. */
  datatype Value = Str(s: string) | Num(n: int)

  /** A stored document or JSON object: field name to value. */
  type Document = map<string, Value>

  /** The fields the JSON form hides. */
  const HiddenFields: set<string> := {"_id", "__v", "userId"}

  /** The account as the database stores it. */
  function AsDocument(a: Account): Document {
    map[
      "_id" := Str(a.id),
      "__v" := Num(a.version),
      "name" := Str(a.name),
      "number" := Str(a.number),
      "userId" := Str(a.userId),
      "balance" := Num(a.balance),
      "currency" := Str(a.currency)]
  }

  /** The `toJSON` transform: drops `_id`, `__v` and `userId` and keeps every other field as it is. */
  function ToJson(doc: Document): (out: Document)
    ensures out.Keys == doc.Keys - HiddenFields
    ensures forall k :: k in out ==> out[k] == doc[k]
  {
    map k | k in doc && k !in HiddenFields :: doc[k]
  }

  /** Rebuilds an account from its JSON form and the three hidden fields; `None` when a
      field is missing or of the wrong kind. */
  function FromJson(json: Document, id: string, version: nat, userId: string): Option<Account> {
    if && "name" in json && json["name"].Str?
       && "number" in json && json["number"].Str?
       && "balance" in json && json["balance"].Num?
       && "currency" in json && json["currency"].Str?
    then Some(Account(id, version, json["name"].s, json["number"].s, userId, json["balance"].n, json["currency"].s))
    else None
  }

  /** The JSON form of an account holds exactly name, number, balance and currency, and
      together with the hidden fields it determines the account. */
  lemma JsonRoundTrip(a: Account)
    ensures ToJson(AsDocument(a)).Keys == {"name", "number", "balance", "currency"}
    ensures FromJson(ToJson(AsDocument(a)), a.id, a.version, a.userId) == Some(a)
  {
    var json := ToJson(AsDocument(a));
    assert "name" in json && "number" in json && "balance" in json && "currency" in json;
    assert json.Keys == {"name", "number", "balance", "currency"};
  }
}
