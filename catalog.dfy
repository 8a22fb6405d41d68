/** The firmware catalog (`devices.json`) and the lookups the download, emergency-file
    and `/request` flows perform on it. Product types and codes typed by the user are
    upper-cased before they are compared with the catalog. */
module Catalog {
  import opened Common
  import opened Text

  /** A product code and the message ids of its firmware in the firmware channel
      (`DownloadID`; an empty list means the firmware is not in the repository). */
  datatype ProductCode = ProductCode(code: string, downloadIds: seq<int>)

  /** A device entry. `emergencyId` is the message id of the emergency flash files
      in the emergency channel; 0 stands for a missing (falsy) `DownloadID`. */
  datatype Device = Device(productType: string, productCodes: seq<ProductCode>, emergencyId: int)

  /** `product_codes['DownloadID']` is truthy. */
  predicate Available(pc: ProductCode) { |pc.downloadIds| > 0 }

  /** `any(product_codes['DownloadID'] for product_codes in device['ProductCodes'])`. */
  predicate HasFirmware(d: Device) {
    exists k :: 0 <= k < |d.productCodes| && Available(d.productCodes[k])
  }

  /** `device['Emergency']['DownloadID']` is truthy. */
  predicate HasEmergency(d: Device) { d.emergencyId != 0 }

  predicate TypeKnown(catalog: seq<Device>, t: string) {
    exists d :: d in catalog && d.productType == t
  }

  predicate HasCode(d: Device, c: string) {
    exists k :: 0 <= k < |d.productCodes| && d.productCodes[k].code == c
  }

  // ---------------------------------------------------------------------------
  // Keyboards offered when a flow starts

  /** Product types offered by `/download`: those with at least one available code, in catalog order. */
  function DownloadKeyboard(catalog: seq<Device>): (r: seq<string>)
    ensures |r| <= |catalog|
    ensures forall t :: t in r <==> exists d :: d in catalog && d.productType == t && HasFirmware(d)
  {
    if catalog == [] then []
    else
      assert catalog == [catalog[0]] + catalog[1..];
      (if HasFirmware(catalog[0]) then [catalog[0].productType] else []) + DownloadKeyboard(catalog[1..])
  }

  /** Product types offered by `/emergency_files`: those with emergency files, in catalog order. */
  function EmergencyKeyboard(catalog: seq<Device>): (r: seq<string>)
    ensures |r| <= |catalog|
    ensures forall t :: t in r <==> exists d :: d in catalog && d.productType == t && HasEmergency(d)
  {
    if catalog == [] then []
    else
      assert catalog == [catalog[0]] + catalog[1..];
      (if HasEmergency(catalog[0]) then [catalog[0].productType] else []) + EmergencyKeyboard(catalog[1..])
  }

  // ---------------------------------------------------------------------------
  // Step 1 of the download flow: the product type

  /** Codes of one device whose firmware is available, in order. */
  function AvailableCodes(pcs: seq<ProductCode>): (r: seq<string>)
    ensures forall c :: c in r <==> exists pc :: pc in pcs && pc.code == c && Available(pc)
  {
    if pcs == [] then []
    else
      assert pcs == [pcs[0]] + pcs[1..];
      (if Available(pcs[0]) then [pcs[0].code] else []) + AvailableCodes(pcs[1..])
  }

  /** The product-code buttons: the available codes of every device of type `t`. */
  function CodeOptions(catalog: seq<Device>, t: string): (r: seq<string>)
    ensures forall c :: c in r <==>
      exists d, pc :: d in catalog && d.productType == t && pc in d.productCodes && pc.code == c && Available(pc)
  {
    if catalog == [] then []
    else
      assert catalog == [catalog[0]] + catalog[1..];
      (if catalog[0].productType == t then AvailableCodes(catalog[0].productCodes) else [])
        + CodeOptions(catalog[1..], t)
  }

  datatype TypeStep = UnknownType | NothingAvailable | OfferCodes(codes: seq<string>)

  /** What `handle_product_type` does with the text it receives. */
  function ProductTypeStep(catalog: seq<Device>, text: string): (r: TypeStep)
    ensures r.UnknownType? <==> !TypeKnown(catalog, Upper(text))
    ensures r.OfferCodes? ==> r.codes == CodeOptions(catalog, Upper(text)) && |r.codes| > 0
  {
    var t := Upper(text);
    if exists d :: d in catalog && d.productType == t then
      var codes := CodeOptions(catalog, t);
      if |codes| > 0 then OfferCodes(codes) else NothingAvailable
    else UnknownType
  }

  /** The type step moves on exactly when the upper-cased text names a device with an
      available code, and then it offers exactly the available codes of that type. */
  lemma ProductTypeStepOffers(catalog: seq<Device>, text: string)
    ensures ProductTypeStep(catalog, text).OfferCodes? <==>
      exists d :: d in catalog && d.productType == Upper(text) && HasFirmware(d)
    ensures ProductTypeStep(catalog, text).OfferCodes? ==>
      forall c :: c in ProductTypeStep(catalog, text).codes <==>
        exists d, pc :: d in catalog && d.productType == Upper(text) && pc in d.productCodes
                        && pc.code == c && Available(pc)
  {
    var t := Upper(text);
    var codes := CodeOptions(catalog, t);
    if d :| d in catalog && d.productType == t && HasFirmware(d) {
      var k :| 0 <= k < |d.productCodes| && Available(d.productCodes[k]);
      var pc := d.productCodes[k];
      assert pc in d.productCodes;
      assert pc.code in codes;
    }
    if |codes| > 0 {
      assert codes[0] in codes;
      var d, pc :| d in catalog && d.productType == t && pc in d.productCodes && pc.code == codes[0] && Available(pc);
      var k :| 0 <= k < |d.productCodes| && d.productCodes[k] == pc;
      assert HasFirmware(d);
    }
  }

  /** A button of the download keyboard whose label is already upper case always
      leads to the product-code step. */
  lemma DownloadChoiceAdvances(catalog: seq<Device>, t: string)
    requires t in DownloadKeyboard(catalog)
    requires Upper(t) == t
    ensures ProductTypeStep(catalog, t).OfferCodes?
  {
    ProductTypeStepOffers(catalog, t);
  }

  // ---------------------------------------------------------------------------
  // Step 2 of the download flow: the product code

  /** Index of the first entry of `pcs` with code `c`. */
  function FirstCodeIndex(pcs: seq<ProductCode>, c: string): (r: Option<nat>)
    ensures r.None? <==> forall k :: 0 <= k < |pcs| ==> pcs[k].code != c
    ensures r.Some? ==> r.value < |pcs| && pcs[r.value].code == c
                        && forall k :: 0 <= k < r.value ==> pcs[k].code != c
  {
    if pcs == [] then None
    else if pcs[0].code == c then Some(0)
    else
      match FirstCodeIndex(pcs[1..], c)
      case None => None
      case Some(k) => Some(k + 1)
  }

  /** Index of the first device, of any type, listing code `c`. */
  function FirstDeviceWithCode(catalog: seq<Device>, c: string): (r: Option<nat>)
    ensures r.None? <==> forall i :: 0 <= i < |catalog| ==> !HasCode(catalog[i], c)
    ensures r.Some? ==> r.value < |catalog| && HasCode(catalog[r.value], c)
                        && forall i :: 0 <= i < r.value ==> !HasCode(catalog[i], c)
  {
    if catalog == [] then None
    else if HasCode(catalog[0], c) then Some(0)
    else
      match FirstDeviceWithCode(catalog[1..], c)
      case None => None
      case Some(i) => Some(i + 1)
  }

  datatype CodeStep = UnknownCode | Deliver(productType: string, downloadIds: seq<int>)

  /** What `handle_product_code` looks up for the text it receives. The product type
      chosen in step 1 plays no part: every device is searched. */
  function ProductCodeStep(catalog: seq<Device>, text: string): (r: CodeStep)
    ensures r.UnknownCode? <==> forall i :: 0 <= i < |catalog| ==> !HasCode(catalog[i], Upper(text))
    ensures r.Deliver? ==>
      exists i, k :: 0 <= i < |catalog| && 0 <= k < |catalog[i].productCodes|
        && catalog[i].productCodes[k].code == Upper(text)
        && (forall j :: 0 <= j < i ==> !HasCode(catalog[j], Upper(text)))
        && (forall m :: 0 <= m < k ==> catalog[i].productCodes[m].code != Upper(text))
        && r.productType == catalog[i].productType
        && r.downloadIds == catalog[i].productCodes[k].downloadIds
  {
    var c := Upper(text);
    match FirstDeviceWithCode(catalog, c)
    case None => UnknownCode
    case Some(i) =>
      var k := FirstCodeIndex(catalog[i].productCodes, c).value;
      Deliver(catalog[i].productType, catalog[i].productCodes[k].downloadIds)
  }

  /** Because the code is looked up across all devices, a code offered under one type
      can resolve to another device that lists the same code without firmware. */
  lemma OfferedCodeCanResolveElsewhere()
    ensures var catalog := [Device("RM-1", [ProductCode("X", [])], 0),
                            Device("RM-2", [ProductCode("X", [7])], 0)];
            ProductTypeStep(catalog, "RM-2") == OfferCodes(["X"])
            && ProductCodeStep(catalog, "X") == Deliver("RM-1", [])
  {
    var catalog := [Device("RM-1", [ProductCode("X", [])], 0),
                    Device("RM-2", [ProductCode("X", [7])], 0)];
    assert Upper("RM-2") == "RM-2";
    assert Upper("X") == "X";
    assert catalog[1] in catalog;
    assert CodeOptions(catalog[2..], "RM-2") == [];
    assert CodeOptions(catalog[1..], "RM-2") == ["X"];
    assert CodeOptions(catalog, "RM-2") == ["X"];
    assert catalog[0].productCodes[0].code == "X";
    assert HasCode(catalog[0], "X");
  }

  // ---------------------------------------------------------------------------
  // The emergency-files flow

  /** Device `i` is the first device of type `t` with emergency files. */
  predicate FirstEmergencyAt(catalog: seq<Device>, t: string, i: int) {
    0 <= i < |catalog| && catalog[i].productType == t && HasEmergency(catalog[i])
    && forall j :: 0 <= j < i ==> !(catalog[j].productType == t && HasEmergency(catalog[j]))
  }

  /** Emergency message id of the first device of type `t` that has one. */
  function FirstEmergency(catalog: seq<Device>, t: string): (r: Option<int>)
    ensures r.None? <==> forall i :: 0 <= i < |catalog| ==> !(catalog[i].productType == t && HasEmergency(catalog[i]))
    ensures r.Some? ==> (exists i :: FirstEmergencyAt(catalog, t, i) && catalog[i].emergencyId == r.value)
  {
    if catalog == [] then None
    else if catalog[0].productType == t && HasEmergency(catalog[0]) then
      assert FirstEmergencyAt(catalog, t, 0);
      Some(catalog[0].emergencyId)
    else
      var r := FirstEmergency(catalog[1..], t);
      assert r.Some? ==> (exists i :: FirstEmergencyAt(catalog, t, i) && catalog[i].emergencyId == r.value) by {
        if r.Some? {
          var i :| FirstEmergencyAt(catalog[1..], t, i) && catalog[1..][i].emergencyId == r.value;
          assert catalog[i + 1] == catalog[1..][i];
          forall j | 0 <= j < i + 1
            ensures !(catalog[j].productType == t && HasEmergency(catalog[j]))
          {
            if j > 0 { assert catalog[j] == catalog[1..][j - 1]; }
          }
          assert FirstEmergencyAt(catalog, t, i + 1);
        }
      }
      r
  }

  datatype EmergencyStep = UnknownEmergencyType | EmergencyFile(messageId: int) | NoEmergencyFile

  /** What `handle_emergency_files` does with the text it receives. */
  function EmergencyStepFor(catalog: seq<Device>, text: string): (r: EmergencyStep)
    ensures r.UnknownEmergencyType? <==> !TypeKnown(catalog, Upper(text))
    ensures r.EmergencyFile? <==> exists d :: d in catalog && d.productType == Upper(text) && HasEmergency(d)
    ensures r.EmergencyFile? ==> r == EmergencyFile(FirstEmergency(catalog, Upper(text)).value)
  {
    var t := Upper(text);
    if exists d :: d in catalog && d.productType == t then
      match FirstEmergency(catalog, t)
      case Some(id) => EmergencyFile(id)
      case None =>
        assert forall d :: d in catalog && d.productType == t ==> !HasEmergency(d) by {
          forall d | d in catalog && d.productType == t ensures !HasEmergency(d) {
            var i :| 0 <= i < |catalog| && catalog[i] == d;
          }
        }
        NoEmergencyFile
    else UnknownEmergencyType
  }

  /** A button of the emergency keyboard whose label is already upper case always delivers a file. */
  lemma EmergencyChoiceDelivers(catalog: seq<Device>, t: string)
    requires t in EmergencyKeyboard(catalog)
    requires Upper(t) == t
    ensures EmergencyStepFor(catalog, t).EmergencyFile?
  {
  }

  // ---------------------------------------------------------------------------
  // /request <type> <code>

  /** Index of the first device of type `t`. */
  function FirstDeviceOfType(catalog: seq<Device>, t: string): (r: Option<nat>)
    ensures r.None? <==> !TypeKnown(catalog, t)
    ensures r.Some? ==> r.value < |catalog| && catalog[r.value].productType == t
                        && forall i :: 0 <= i < r.value ==> catalog[i].productType != t
  {
    if catalog == [] then None
    else if catalog[0].productType == t then Some(0)
    else
      assert catalog == [catalog[0]] + catalog[1..];
      match FirstDeviceOfType(catalog[1..], t)
      case None => None
      case Some(i) => Some(i + 1)
  }

  /** Outcomes of `request_firmware`. The "valid product code" reply has no outcome here:
      an unknown code under a known type raises before that branch is reached. */
  datatype RequestVerdict =
    | RequestUsage
    | TypeUnknown
    | AlreadyAvailable
    | Requested(productType: string, productCode: string)
    | RequestRaises

  /** The validity cascade of `request_firmware` over the words of the command. */
  function RequestCheck(catalog: seq<Device>, params: seq<string>): (r: RequestVerdict)
    ensures r.RequestUsage? <==> |params| < 3
    ensures r.TypeUnknown? <==> |params| >= 3 && !TypeKnown(catalog, Upper(params[1]))
    ensures r.RequestRaises? <==> (|params| >= 3 && TypeKnown(catalog, Upper(params[1]))
      && FirstCodeIndex(catalog[FirstDeviceOfType(catalog, Upper(params[1])).value].productCodes, Upper(params[2])).None?)
    ensures r.Requested? ==> r.productType == Upper(params[1]) && r.productCode == Upper(params[2])
  {
    if |params| < 3 then RequestUsage
    else
      var t := Upper(params[1]);
      var c := Upper(params[2]);
      match FirstDeviceOfType(catalog, t)
      case None => TypeUnknown
      case Some(i) =>
        match FirstCodeIndex(catalog[i].productCodes, c)
        case None => RequestRaises
        case Some(k) => if Available(catalog[i].productCodes[k]) then AlreadyAvailable else Requested(t, c)
  }

  /** A request is forwarded exactly when the first device of the named type lists the
      named code without any firmware. */
  lemma RequestForwardedIff(catalog: seq<Device>, params: seq<string>)
    ensures RequestCheck(catalog, params).Requested? <==>
      |params| >= 3 &&
      exists i, k :: 0 <= i < |catalog| && 0 <= k < |catalog[i].productCodes|
        && catalog[i].productType == Upper(params[1])
        && (forall j :: 0 <= j < i ==> catalog[j].productType != Upper(params[1]))
        && catalog[i].productCodes[k].code == Upper(params[2])
        && (forall m :: 0 <= m < k ==> catalog[i].productCodes[m].code != Upper(params[2]))
        && !Available(catalog[i].productCodes[k])
  {
    if |params| >= 3 {
      var t := Upper(params[1]);
      var c := Upper(params[2]);
      if i, k :| (0 <= i < |catalog| && 0 <= k < |catalog[i].productCodes|
                  && catalog[i].productType == t
                  && (forall j :: 0 <= j < i ==> catalog[j].productType != t)
                  && catalog[i].productCodes[k].code == c
                  && (forall m :: 0 <= m < k ==> catalog[i].productCodes[m].code != c)
                  && !Available(catalog[i].productCodes[k])) {
        assert catalog[i] in catalog;
        var fi := FirstDeviceOfType(catalog, t);
        assert fi == Some(i);
        assert FirstCodeIndex(catalog[i].productCodes, c) == Some(k);
      }
    }
  }
}
