/**
 * The class registry of config.js: the table of classes (each with the
 * group it admits to and the product ids that entitle a buyer to join),
 * the currently selected class copied into top-level fields, and the
 * fixed decline messages.
 */
module Registry {
  import opened Wrappers

  /** One entry of `CLASSES`. */
  datatype ClassConfig = ClassConfig(groupUrl: string, eligibleProductIds: seq<string>)

  /** A class is usable once it has a group URL and at least one product id. */
  predicate IsConfigured(c: ClassConfig) {
    c.groupUrl != "" && |c.eligibleProductIds| > 0
  }

  // Decline messages (Bangla), keyed as in config.js.
  const DECLINE_ALREADY_APPROVED: string := "এই ট্রানজেকশন আইডি একবার ব্যবহৃত হয়েছে, একটি ট্রানজেকশন আইডি ব্যবহার করে একবারই গ্রুপে জয়েন হতে পারবে"
  const DECLINE_PHONE_MISMATCH: string := "ফোন নম্বরটি এই ট্রানজেকশন আইডির জন্য সঠিক নয়, যে নম্বর দিয়ে আইডি খুলে কোর্স কিনেছ সেই নম্বরটি দাও"
  const DECLINE_TRANSACTION_NOT_FOUND: string := "ট্রানজেকশন আইডি সঠিক নয়"
  const DECLINE_PRODUCT_NOT_ELIGIBLE: string := "তুমি যে কোর্স কিনেছো, সেই কোর্সটি এই গ্রুপের জন্যে নয়"
  const DECLINE_NO_ANSWERS: string := "প্রশ্নের উত্তর দেওয়া হয়নি"
  const DECLINE_MISSING_PHONE: string := "ফোন নম্বর দেওয়া হয়নি"
  const DECLINE_MISSING_TRANSACTION: string := "ট্রানজেকশন আইডি দেওয়া হয়নি"
  const DECLINE_MISSING_BOTH: string := "ট্রানজেকশন আইডি ও ফোন নম্বর দেওয়া হয়নি"
  const DECLINE_DATABASE_ERROR: string := "সঠিক তথ্য প্রদান করে আবার রিকোয়েস্ট দাও"

  /** The decline messages of the configuration object, one field per key. */
  datatype DeclineMessages = DeclineMessages(
    alreadyApproved: string,
    phoneMismatch: string,
    transactionNotFound: string,
    productNotEligible: string,
    noAnswers: string,
    missingPhone: string,
    missingTransaction: string,
    missingBoth: string,
    databaseError: string)

  /** Every message has text, so a decline always carries a reason. */
  predicate AllWorded(m: DeclineMessages) {
    && m.alreadyApproved != "" && m.phoneMismatch != "" && m.transactionNotFound != ""
    && m.productNotEligible != "" && m.noAnswers != "" && m.missingPhone != ""
    && m.missingTransaction != "" && m.missingBoth != "" && m.databaseError != ""
  }

  const SHIPPED_MESSAGES: DeclineMessages := DeclineMessages(
    DECLINE_ALREADY_APPROVED, DECLINE_PHONE_MISMATCH, DECLINE_TRANSACTION_NOT_FOUND,
    DECLINE_PRODUCT_NOT_ELIGIBLE, DECLINE_NO_ANSWERS, DECLINE_MISSING_PHONE,
    DECLINE_MISSING_TRANSACTION, DECLINE_MISSING_BOTH, DECLINE_DATABASE_ERROR)

  const SCIENCE_10: string := "Class 10 Science"

  /** Declaration order of the shipped `CLASSES` table (what `Object.keys` yields). */
  const SHIPPED_ORDER: seq<string> :=
    ["Class 6", "Class 7", "Class 8", "Class 9", SCIENCE_10, "Class 10 Commerce"]

  const SCIENCE_10_URL: string := "https://www.facebook.com/groups/2499286187104014/member-requests?joined_fb_recently=false&orderby=chronological&previously_removed_members=false&suggested=false"

  const SCIENCE_10_PRODUCTS: seq<string> := [
    "f9db6ff1-c365-4e29-a3a7-7d0bd9487c9c",
    "4e8f4314-2d70-48a6-8fb0-4384d735dce2",
    "d8787524-8ef5-4a22-a605-8d9a5a75eee4"]

  /** The shipped `CLASSES` table. */
  function ShippedClasses(): map<string, ClassConfig> {
    map[
      "Class 6" := ClassConfig("", []),
      "Class 7" := ClassConfig("", []),
      "Class 8" := ClassConfig("", []),
      "Class 9" := ClassConfig("", []),
      SCIENCE_10 := ClassConfig(SCIENCE_10_URL, SCIENCE_10_PRODUCTS),
      "Class 10 Commerce" := ClassConfig("", [])]
  }

  /** The class names of `order` that are configured, in order (the filter used by the prompt and the multi-tab launcher). */
  function ConfiguredClasses(order: seq<string>, classes: map<string, ClassConfig>): (r: seq<string>)
    requires forall i :: 0 <= i < |order| ==> order[i] in classes
    ensures forall n :: n in r <==> n in order && IsConfigured(classes[n])
    ensures |r| <= |order|
  {
    if order == [] then []
    else
      var rest := ConfiguredClasses(order[1..], classes);
      if IsConfigured(classes[order[0]]) then [order[0]] + rest else rest
  }

  /** The keys of a well-formed table, listed once each in declaration order. */
  ghost predicate WellOrdered(order: seq<string>, classes: map<string, ClassConfig>) {
    && (forall i, j :: 0 <= i < j < |order| ==> order[i] != order[j])
    && (forall n :: n in classes <==> n in order)
  }

  /** The shipped table lists each of its classes once. */
  lemma ShippedWellOrdered()
    ensures WellOrdered(SHIPPED_ORDER, ShippedClasses())
  {
  }

  /** In the shipped table exactly one class, Class 10 Science, is configured. */
  lemma ShippedConfiguration()
    ensures ConfiguredClasses(SHIPPED_ORDER, ShippedClasses()) == [SCIENCE_10]
  {
    var m, o := ShippedClasses(), SHIPPED_ORDER;
    ShippedLookups();
    ShippedWellOrdered();
    assert o[4] == SCIENCE_10;
    assert IsConfigured(m[o[4]]);
    OnlyOneConfigured(o, m, SCIENCE_10);
  }

  /** When a single class of a duplicate-free order is configured, the filter yields exactly that class. */
  lemma {:induction false} OnlyOneConfigured(order: seq<string>, classes: map<string, ClassConfig>, name: string)
    requires forall i :: 0 <= i < |order| ==> order[i] in classes
    requires forall i, j :: 0 <= i < j < |order| ==> order[i] != order[j]
    requires forall i :: 0 <= i < |order| ==> (IsConfigured(classes[order[i]]) <==> order[i] == name)
    requires name in order
    ensures ConfiguredClasses(order, classes) == [name]
  {
    if order[0] == name {
      NoneConfigured(order[1..], classes);
    } else {
      OnlyOneConfigured(order[1..], classes, name);
    }
  }

  lemma {:induction false} NoneConfigured(order: seq<string>, classes: map<string, ClassConfig>)
    requires forall i :: 0 <= i < |order| ==> order[i] in classes
    requires forall i :: 0 <= i < |order| ==> !IsConfigured(classes[order[i]])
    ensures ConfiguredClasses(order, classes) == []
  {
    if order != [] {
      NoneConfigured(order[1..], classes);
    }
  }

  /** Each shipped class other than Class 10 Science has no product ids. */
  lemma ShippedLookups()
    ensures var m, o := ShippedClasses(), SHIPPED_ORDER;
            && (forall i :: 0 <= i < |o| && i != 4 ==> m[o[i]].eligibleProductIds == [])
            && m[o[4]] == ClassConfig(SCIENCE_10_URL, SCIENCE_10_PRODUCTS)
  {
    var m, o := ShippedClasses(), SHIPPED_ORDER;
    assert m[o[0]].eligibleProductIds == [];
    assert m[o[1]].eligibleProductIds == [];
    assert m[o[2]].eligibleProductIds == [];
    assert m[o[3]].eligibleProductIds == [];
    assert m[o[5]].eligibleProductIds == [];
  }

  /** The mutable configuration object exported by config.js. */
  class Config {
    var classes: map<string, ClassConfig>
    var classOrder: seq<string>
    var selectedClass: Option<string>
    var groupUrl: string
    var eligibleProductIds: seq<string>
    var messages: DeclineMessages

    ghost predicate Valid()
      reads this
    {
      WellOrdered(classOrder, classes) && AllWorded(messages)
    }

    /** The object as config.js loads it. */
    constructor ()
      ensures Valid()
      ensures classes == ShippedClasses() && classOrder == SHIPPED_ORDER
      ensures selectedClass == None && groupUrl == "" && eligibleProductIds == []
      ensures messages == SHIPPED_MESSAGES
    {
      classes := ShippedClasses();
      classOrder := SHIPPED_ORDER;
      selectedClass := None;
      groupUrl := "";
      eligibleProductIds := [];
      messages := SHIPPED_MESSAGES;
      ShippedWellOrdered();
    }

    /** `setSelectedClass`: copy a known class's settings into the top-level fields. */
    method SetSelectedClass(name: string) returns (ok: bool)
      requires Valid()
      modifies this
      ensures Valid()
      ensures ok <==> name in old(classes)
      ensures classes == old(classes) && classOrder == old(classOrder) && messages == old(messages)
      ensures ok ==> && selectedClass == Some(name)
                     && groupUrl == classes[name].groupUrl
                     && eligibleProductIds == classes[name].eligibleProductIds
      ensures !ok ==> && selectedClass == old(selectedClass)
                      && groupUrl == old(groupUrl)
                      && eligibleProductIds == old(eligibleProductIds)
    {
      if name in classes {
        selectedClass := Some(name);
        groupUrl := classes[name].groupUrl;
        eligibleProductIds := classes[name].eligibleProductIds;
        ok := true;
      } else {
        ok := false;
      }
    }

    /** `getAvailableClasses`: every class name, each once, in declaration order. */
    method GetAvailableClasses() returns (names: seq<string>)
      requires Valid()
      ensures forall n :: n in names <==> n in classes
      ensures forall i, j :: 0 <= i < j < |names| ==> names[i] != names[j]
      ensures names == classOrder
    {
      names := classOrder;
    }

    /** `updateClassConfig`: replace one known class's settings; nothing else changes. */
    method UpdateClassConfig(name: string, url: string, ids: seq<string>) returns (ok: bool)
      requires Valid()
      modifies this
      ensures Valid()
      ensures ok <==> name in old(classes)
      ensures ok ==> classes == old(classes)[name := ClassConfig(url, ids)]
      ensures !ok ==> classes == old(classes)
      ensures classes.Keys == old(classes).Keys && classOrder == old(classOrder)
      ensures selectedClass == old(selectedClass) && groupUrl == old(groupUrl)
      ensures eligibleProductIds == old(eligibleProductIds) && messages == old(messages)
    {
      if name in classes {
        classes := classes[name := ClassConfig(url, ids)];
        ok := true;
      } else {
        ok := false;
      }
    }
  }
}
