/** The application's configuration turned into the library's: split proposal lists and derived settings. */
module RuntimeConfig {
  import opened Core
  import opened Connection
  import Proposals

  datatype AppConfig = AppConfig(
    connectionName: CString, childName: CString, localAddress: CString, remoteAddress: CString,
    localId: CString, remoteId: CString, ikeProposals: CString, espProposals: CString, mode: Mode, childless: bool)

  // What `inet_pton` says about the two addresses.
  datatype Families = Families(localIsV4: bool, remoteIsV4: bool)

  /** The traffic selector of a single host. */
  function HostSelector(address: CString, isV4: bool): CString {
    var text := address + (if isV4 then "/32" else "/128");
    if |text| < SELECTOR_LIST_LENGTH then text else text[..SELECTOR_LIST_LENGTH - 1]
  }

  /** Items of a C string are C strings. */
  function CTexts(items: seq<string>, text: CString): (r: seq<CString>)
    requires Proposals.Drawn(items, text)
    ensures r == items
  {
    if items == [] then []
    else
      assert forall i :: 0 <= i < |items[0]| ==> items[0][i] in text;
      [items[0]] + CTexts(items[1..], text)
  }

  /** The only proposals whose derived PFS setting the library refuses: some proposal is a lone key exchange, and
      none has a key exchange behind a hyphen. */
  predicate OnlyLoneKe(esp: seq<CString>) {
    && (exists i :: 0 <= i < |esp| && Proposals.IsLoneKe(esp[i]))
    && forall i :: 0 <= i < |esp| ==> !Proposals.HasLaterKe(esp[i])
  }

  /** The settings are those that the ESP proposals imply. */
  predicate Derived(c: Config) {
    && (c.esn == EsnDisabled <==> Proposals.AnyHasComponent(c.espProposals, "noesn"))
    && (c.esn == EsnEnabled <==> Proposals.AnyHasComponent(c.espProposals, "esn") && c.esn != EsnDisabled)
    && c.esn != EsnOther
    && (c.pfs <==> exists i :: 0 <= i < |c.espProposals| && Proposals.EndsInKe(c.espProposals[i]))
  }

  /** Derived settings always pass the ESN check, and they pass the PFS check with one exception. */
  lemma {:induction false} DerivedMatches(c: Config)
    requires Derived(c)
    ensures IntentMatches(c) <==> !OnlyLoneKe(c.espProposals)
  {
    hide Proposals.EndsInKe, Proposals.HasLaterKe, Proposals.IsLoneKe, Proposals.AnyHasComponent;
    Proposals.DerivedPfsPasses(c.espProposals);
  }

  /** What the application's own settings must be for the library to accept them. */
  predicate Usable(config: AppConfig) {
    && GoodName(config.connectionName) && GoodName(config.childName)
    && 1 <= |config.localId| < ID_LENGTH && 1 <= |config.remoteId| < ID_LENGTH
    && 1 <= |config.localAddress| <= MAX_INPUT_LENGTH && 1 <= |config.remoteAddress| <= MAX_INPUT_LENGTH
    && (config.mode == Tunnel || config.mode == Transport)
  }

  method DeriveEsn(esp: seq<string>) returns (esn: Esn)
    ensures esn == EsnDisabled <==> Proposals.AnyHasComponent(esp, "noesn")
    ensures esn == EsnEnabled <==> Proposals.AnyHasComponent(esp, "esn") && esn != EsnDisabled
    ensures esn != EsnOther
  {
    esn := EsnAuto;
    var noEsnToken := Proposals.HasProposalToken(esp, "noesn");
    if noEsnToken {
      esn := EsnDisabled;
    } else {
      var esnToken := Proposals.HasProposalToken(esp, "esn");
      if esnToken {
        esn := EsnEnabled;
      }
    }
  }

  /** The connection that `BuildNativeAppRuntimeConfig` fills in, but for the four derived fields. */
  function Filled(config: AppConfig, families: Families): Config {
    Config(config.connectionName, config.childName, [config.localAddress], [config.remoteAddress],
           Psk, Psk, config.localId, config.remoteId, [], [],
           [HostSelector(config.localAddress, families.localIsV4)], [HostSelector(config.remoteAddress, families.remoteIsV4)],
           config.mode, EsnAuto, false, false, true, false, config.childless, 0, 0, 0, 0, 0, 0)
  }

  lemma {:induction false} FilledValid(config: AppConfig, families: Families, c: Config)
    requires c == Filled(config, families).(ikeProposals := c.ikeProposals, espProposals := c.espProposals, esn := c.esn, pfs := c.pfs)
    requires GoodList(c.ikeProposals) && GoodList(c.espProposals) && c.esn != EsnOther
    ensures ValidConfig(c) <==> Usable(config) && IntentMatches(c)
  {
    hide IntentMatches, GoodName;
    assert [config.localAddress][0] == c.localAddresses[0] && [config.remoteAddress][0] == c.remoteAddresses[0];
  }

  lemma {:induction false} CheckedGood(text: string, items: seq<CString>)
    requires Proposals.ProposalList(text) == Some(items)
    ensures GoodList(items)
  {
    assert forall i :: 0 <= i < |items| ==> Proposals.GoodItem(items[i]);
  }

  /** `BuildNativeAppRuntimeConfig`.  The library accepts the result exactly if the application's own settings are
      usable and the proposals are not of the one refused kind. */
  method BuildRuntimeConfig(config: AppConfig, families: Families) returns (error: Error, connection: Config)
    ensures error == if Proposals.ProposalList(config.ikeProposals).Some? && Proposals.ProposalList(config.espProposals).Some?
                     then Ok else InvalidArgument
    ensures error == Ok ==>
              && Some(connection.ikeProposals) == Proposals.ProposalList(config.ikeProposals)
              && Some(connection.espProposals) == Proposals.ProposalList(config.espProposals)
              && Derived(connection)
              && connection == Filled(config, families).(ikeProposals := connection.ikeProposals, espProposals := connection.espProposals,
                                                         esn := connection.esn, pfs := connection.pfs)
    ensures error == Ok ==> (ValidConfig(connection) <==> Usable(config) && !OnlyLoneKe(connection.espProposals))
  {
    hide Proposals.ProposalList, Proposals.EndsInKe, Proposals.AnyHasComponent, ValidConfig, Usable, OnlyLoneKe, IntentMatches;
    connection := Filled(config, families);
    var ike: seq<string>, esp: seq<string> := [], [];
    error, ike := Proposals.SplitProposals(config.ikeProposals);
    if error == Ok {
      error, esp := Proposals.SplitProposals(config.espProposals);
    }
    if error != Ok {
      return;
    }
    var esn := DeriveEsn(esp);
    var pfs := Proposals.HasPfsToken(esp);
    var ikeTexts := CTexts(ike, config.ikeProposals);
    var espTexts := CTexts(esp, config.espProposals);
    CheckedGood(config.ikeProposals, ikeTexts);
    CheckedGood(config.espProposals, espTexts);
    connection := connection.(ikeProposals := ikeTexts, espProposals := espTexts, esn := esn, pfs := pfs);
    DerivedMatches(connection);
    FilledValid(config, families, connection);
  }
}
