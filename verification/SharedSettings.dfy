/** Which settings the tills of a shop share, and that with them they share the tax. */
module SharedSettings {
  import opened Prelude
  import opened Records
  import opened StoreModel
  import opened CloudModel
  import opened Protocol
  import opened Convergence
  import opened SettingsConvergence
  import Tax

  /** Every setting there is syncs, save the printer's address, which is the device's, and the flag of the unsynced logo. */
  lemma OnlyPrinterAndLogoStayLocal()
    ensures forall key :: key in SYNC_SETTING_KEYS <==> key in DEFAULTS && key != "printer_addr" && key != "has_logo"
    ensures DEFAULTS.Keys == {"shop_name", "paper_width", "printer_addr", "barcode_scanner", "receipt_theme",
                              "receipt_header", "receipt_footer", "has_logo", "tax_rate_bps", "tax_mode"}
  {
  }

  /** Saving a setting shows it, and marks the settings for a push unless it is one of those two or unknown. */
  lemma SavingMarksShared(st: StoreState, key: string, value: string, now: Time)
    ensures var r := Run(st, SetSetting(key, value, now));
            && SettingsOf(r) == SettingsOf(st)[key := value]
            && r.settingsDue == if key in DEFAULTS && key != "printer_addr" && key != "has_logo" then Some(now) else st.settingsDue
  {
    OnlyPrinterAndLogoStayLocal();
    RunSets(st, key, value, now);
    hide SYNC_SETTING_KEYS, DEFAULTS, Run;
    OverlayOne(DEFAULTS, st.settings, key, value);
  }

  lemma RunSets(st: StoreState, key: string, value: string, now: Time)
    ensures var r := Run(st, SetSetting(key, value, now));
            && r.settings == st.settings[key := value]
            && r.settingsDue == if key in SYNC_SETTING_KEYS then Some(now) else st.settingsDue
  {
    hide SYNC_SETTING_KEYS;
  }

  lemma OverlayOne(under: map<string, string>, m: map<string, string>, key: string, value: string)
    ensures under + m[key := value] == (under + m)[key := value]
  {
  }

  /** A push carries each shared setting as the till itself shows it. */
  lemma PushedAsShown(st: StoreState, key: string)
    requires key in DEFAULTS && key != "printer_addr" && key != "has_logo"
    ensures key in SyncedSettings(st) && key in SettingsOf(st) && SyncedSettings(st)[key] == SettingsOf(st)[key]
  {
    OnlyPrinterAndLogoStayLocal();
    hide SYNC_SETTING_KEYS;
  }

  // ---- The tax settings ----

  /** A number as a setting spells it. */
  function Numeral(n: nat): (s: string)
    ensures IsDigits(s)
  {
    if n < 10 then [('0' as int + n) as char] else Numeral(n / 10) + [('0' as int + n % 10) as char]
  }

  lemma {:induction false} NumeralReads(n: nat)
    ensures DigitsValue(Numeral(n)) == n
  {
    if n < 10 {
      assert DigitsValue("") == 0 && Numeral(n)[..0] == "";
    } else {
      NumeralReads(n / 10);
      assert Numeral(n)[..|Numeral(n)| - 1] == Numeral(n / 10);
    }
  }

  /** The saved rate and mode are the ones a sale is taxed by; an unset shop is untaxed. */
  lemma SavedTaxApplies(settings: map<string, string>, rateBps: nat, mode: string)
    ensures TaxRate(settings["tax_rate_bps" := Numeral(rateBps)]) == rateBps
    ensures mode != "" ==> TaxMode(settings["tax_mode" := mode]) == mode
    ensures TaxRate(map[]) == 0 && TaxMode(map[]) == "none"
  {
    NumeralReads(rateBps);
  }

  lemma DefaultTax()
    ensures DEFAULTS["tax_rate_bps"] == "0" && DEFAULTS["tax_mode"] == "none" && Atoi("0") == 0
  {
    assert DigitsValue("") == 0 && "0"[..0] == "";
    assert DigitsValue("0") == 0;
  }

  /** Tills that share the synced settings share the tax rate and the tax mode. */
  lemma SharedSettingsShareTax(a: StoreState, b: StoreState)
    requires SyncedSettings(a) == SyncedSettings(b)
    ensures TaxRate(a.settings) == TaxRate(b.settings) && TaxMode(a.settings) == TaxMode(b.settings)
  {
    OnlyPrinterAndLogoStayLocal();
    DefaultTax();
    TaxOfSynced(a);
    TaxOfSynced(b);
  }

  /** The tax that a till charges is told from the settings it shares. */
  lemma TaxOfSynced(st: StoreState)
    ensures "tax_rate_bps" in SyncedSettings(st) && "tax_mode" in SyncedSettings(st)
    ensures TaxRate(st.settings) == Atoi(SyncedSettings(st)["tax_rate_bps"])
    ensures var mode := SyncedSettings(st)["tax_mode"]; TaxMode(st.settings) == if mode == "" then "none" else mode
  {
    OnlyPrinterAndLogoStayLocal();
    DefaultTax();
    hide SYNC_SETTING_KEYS, Atoi;
  }

  /** After the last round any two tills show the same shared settings and tax the same lines alike. */
  lemma TillsTaxAlike(ss: seq<Shop>, es: seq<Event>, a: nat, b: nat, d: nat, d': nat, items: seq<SaleItem>)
    requires TwoRounds(ss, es, a, b, d) && TwoRounds(ss, es, a, b, d')
    requires RepliesCarrySettings(ss, es) && SettingsRest(ss, es, b)
    ensures var t := ss[|es|];
            && d < |t.devices| && d' < |t.devices|
            && var one, other := t.devices[d].store, t.devices[d'].store;
               && (forall key <- DEFAULTS :: key != "printer_addr" && key != "has_logo" ==>
                     key in SettingsOf(one) && key in SettingsOf(other) && SettingsOf(one)[key] == SettingsOf(other)[key])
               && TaxRate(one.settings) == TaxRate(other.settings) && TaxMode(one.settings) == TaxMode(other.settings)
               && Tax.TaxedLines(TaxRate(one.settings), TaxMode(one.settings), items)
                  == Tax.TaxedLines(TaxRate(other.settings), TaxMode(other.settings), items)
  {
    hide Step, Init, QuietFrom, AllComplete, CompletesRound, RepliesCarrySettings, SettingsRest, SettingsOf, SyncedSettings, TaxRate, TaxMode, Tax.TaxedLines;
    SettingsConverge(ss, es, a, b, d);
    SettingsConverge(ss, es, a, b, d');
    var one, other := ss[|es|].devices[d].store, ss[|es|].devices[d'].store;
    SharedSettingsShareTax(one, other);
    forall key | key in DEFAULTS && key != "printer_addr" && key != "has_logo"
      ensures key in SettingsOf(one) && key in SettingsOf(other) && SettingsOf(one)[key] == SettingsOf(other)[key]
    {
      PushedAsShown(one, key);
      PushedAsShown(other, key);
    }
  }
}
