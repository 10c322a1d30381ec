/**
  The bot's fixed configuration: the help text, the brand-to-spreadsheet table
  (`BRAND_SHEETS`), the sub-sheet table of the main brand (`SUBSHEET_IDS`), the
  brand aliases, and the environment variables that supply the spreadsheet IDs.
  The spreadsheets themselves are given as data: a drive maps a spreadsheet ID
  to its worksheets, each a list of records (header to cell text).
*/
module Config {
  import opened Wrappers
  import opened OrderedDict
  import opened Search

  /** The help text sent whenever a message cannot be answered from the sheets. */
  const InstructionText: string := "\n🍀瑰貝鈺AI建材小幫手服務指南☘️\n\n1️⃣ 查詢建材資訊：\n請輸入品牌與型號，\n例如：「品牌 ABC 型號 123」，\n或：「ABC 123」皆可。\n\n可查詢品牌：\nFormica富美家、Lavi樂維、\nDonacai多娜彩、萊適寶、松耐特、\nAICA愛卡、Melatone摩拉頓、\n科彰、吉祥、華旗、華槶、\nKEDING科定\n\n2️⃣ 獲取熱門建材推薦：\n請輸入「熱門主推」\n或利用以下連結\nhttps://portaly.cc/Monsurface/pages/hot_catalog\n查看主打建材資訊。\n\n3️⃣ 查詢技術資訊：\n請輸入「技術資訊」\n或利用以下連結\nhttps://portaly.cc/Monsurface/pages/technical\n查看建材品牌的技術資料。\n\n4️⃣ 瑰貝鈺傳送門：\n利用以下連結\nhttps://portaly.cc/Monsurface\n查看各品牌綜合資訊。\n\n"

  const NoPermissionText: string := "❌ 您沒有查詢權限，請聯絡管理員開通權限。"

  const HotPicksCommand: string := "熱門主推"
  const TechInfoCommand: string := "技術資訊"
  const HotPicksHeading: string := "📌 **熱門主推建材資訊**\n請點擊以下連結查看：\n"
  const TechInfoHeading: string := "🔧 **技術資訊總覽**\n請點擊以下連結查看：\n"
  const HotPicksUnset: string := "⚠️ 未設定熱門主推連結"
  const TechInfoUnset: string := "⚠️ 未設定技術資訊連結"

  /** The brand whose models are listed in a main sheet that points to sub-sheets. */
  const MainBrand: string := "富美家"

  /** `BRAND_SHEETS`: brand name to the environment variable holding its spreadsheet ID. */
  const BrandSheets: Dict<string> := [
    ("富美家", "SPREADSHEET_ID_A"),
    ("新日綠建材", "SPREADSHEET_ID_B"),
    ("鉅莊-樂維LAVI", "SPREADSHEET_ID_C"),
    ("愛卡AICA-愛克板", "SPREADSHEET_ID_D"),
    ("松華-松耐特及系列品牌", "SPREADSHEET_ID_E"),
    ("吉祥", "SPREADSHEET_ID_F"),
    ("華旗", "SPREADSHEET_ID_G"),
    ("科彰", "SPREADSHEET_ID_H"),
    ("華槶線板", "SPREADSHEET_ID_I"),
    ("魔拉頓 Melatone", "SPREADSHEET_ID_J"),
    ("利明礦石軟片", "SPREADSHEET_ID_K"),
    ("科定-KD", "SPREADSHEET_ID_L")
  ]

  /** `SUBSHEET_IDS`: sub-sheet key to the environment variable holding its spreadsheet ID. */
  const SubsheetSheets: Dict<string> := [
    ("富美家A", "SPREADSHEET_ID_A_A"),
    ("富美家B", "SPREADSHEET_ID_A_B"),
    ("富美家C", "SPREADSHEET_ID_A_C"),
    ("富美家D", "SPREADSHEET_ID_A_D"),
    ("富美家E", "SPREADSHEET_ID_A_E")
  ]

  /** `BRAND_ALIASES`: canonical brand name to the names it is also known by. */
  const BrandAliases: Dict<seq<string>> := [
    ("富美家", ["富美家", "Formica"]),
    ("愛卡AICA-愛克板", ["愛卡", "AICA", "愛克板"]),
    ("鉅莊-樂維LAVI", ["鉅莊", "樂維", "LAVI"]),
    ("松華-松耐特及系列品牌", ["松華", "松耐特", "萊適寶", "松華板"]),
    ("魔拉頓 Melatone", ["魔拉頓", "Melatone"])
  ]

  /** The environment: variable name to value, for the variables that are set. */
  type Env = map<string, string>

  /** `os.getenv(name, default)`. */
  function GetEnv(env: Env, name: string, default: string): string {
    if name in env then env[name] else default
  }

  /** The spreadsheet ID a table gives for `key`, when the key is listed and its variable is set and non-empty. */
  function SheetId(table: Dict<string>, env: Env, key: string): (id: Option<string>)
    ensures id.Some? <==> key in Keys(table) && GetEnv(env, Get(table, key).value, "") != ""
    ensures id.Some? ==> id.value == env[Get(table, key).value]
  {
    match Get(table, key)
    case None => None
    case Some(name) => if name in env && env[name] != "" then Some(env[name]) else None
  }

  /** A record as `get_all_records` returns it: header to cell text, in column order. */
  type Record = Dict<string>

  datatype Worksheet = Worksheet(title: string, records: seq<Record>)

  /** Every spreadsheet that can be opened, by ID. */
  type Drive = map<string, seq<Worksheet>>

  predicate Titled(ws: Worksheet, title: string) { ws.title == title }

  /**
    `client.open_by_key(id).worksheet(title).get_all_records()`: the records of the
    first worksheet with that title; `None` when either call raises.
  */
  function OpenWorksheet(drive: Drive, id: string, title: string): (rows: Option<seq<Record>>)
    ensures rows.Some? <==> id in drive && exists i :: 0 <= i < |drive[id]| && drive[id][i].title == title
    ensures rows.Some? ==> exists i :: && 0 <= i < |drive[id]| && drive[id][i] == Worksheet(title, rows.value)
                                       && forall j :: 0 <= j < i ==> drive[id][j].title != title
  {
    if id !in drive then None
    else match FirstMatch(drive[id], Titled, title, 0)
      case None => None
      case Some(i) => Some(drive[id][i].records)
  }

  /** All elements of all the lists, in order. */
  function Concat(lists: seq<seq<string>>): seq<string> {
    if lists == [] then [] else lists[0] + Concat(lists[1..])
  }

  lemma {:induction false} ConcatMember(lists: seq<seq<string>>, x: string)
    ensures x in Concat(lists) <==> exists i :: 0 <= i < |lists| && x in lists[i]
  {
    if lists != [] {
      ConcatMember(lists[1..], x);
      assert Concat(lists) == lists[0] + Concat(lists[1..]);
      if exists i :: 0 <= i < |lists[1..]| && x in lists[1..][i] {
        var i :| 0 <= i < |lists[1..]| && x in lists[1..][i];
        assert x in lists[i + 1];
      }
      if exists i :: 0 <= i < |lists| && x in lists[i] {
        var i :| 0 <= i < |lists| && x in lists[i];
        if i > 0 {
          assert lists[1..][i - 1] == lists[i];
        }
      }
    }
  }

  function Values<V>(d: Dict<V>): (vs: seq<V>)
    ensures |vs| == |d| && forall i :: 0 <= i < |d| ==> vs[i] == d[i].1
  {
    seq(|d|, i requires 0 <= i < |d| => d[i].1)
  }

  /** The choices given to the fuzzy scorer: every brand name, then every alias. */
  function AllBrandNames(): seq<string> {
    Keys(BrandSheets) + Concat(Values(BrandAliases))
  }

  /** The fuzzy scorer's answer: its best choice and that choice's score (0 to 100). */
  datatype Match = Match(choice: string, score: real)

  predicate Lists(group: (string, seq<string>), name: string) { name in group.1 }

  /**
    The part of `fuzzy_match_brand` after scoring: no answer or a score below 70 gives
    no brand; an alias gives the first canonical brand that lists it; anything else is
    returned as it is.
  */
  function CanonicalBrand(m: Option<Match>): (brand: Option<string>)
    ensures brand.Some? <==> m.Some? && m.value.score >= 70.0
    ensures forall i :: && 0 <= i < |BrandAliases| && brand.Some?
                        && m.value.choice in BrandAliases[i].1
                        && (forall j :: 0 <= j < i ==> m.value.choice !in BrandAliases[j].1)
                        ==> brand.value == BrandAliases[i].0
    ensures brand.Some? && (forall i :: 0 <= i < |BrandAliases| ==> m.value.choice !in BrandAliases[i].1) ==>
              brand.value == m.value.choice
  {
    match m
    case None => None
    case Some(Match(best, score)) =>
      if score >= 70.0 then
        match FirstMatch(BrandAliases, Lists, best, 0)
        case Some(i) => Some(BrandAliases[i].0)
        case None => Some(best)
      else None
  }

  /** Every canonical brand of the alias table names a spreadsheet. */
  lemma AliasBrandsAreSheetKeys()
    ensures forall i :: 0 <= i < |BrandAliases| ==> BrandAliases[i].0 in Keys(BrandSheets)
  {
    var keys := Keys(BrandSheets);
    assert BrandAliases[0].0 == keys[0];
    assert BrandAliases[1].0 == keys[3];
    assert BrandAliases[2].0 == keys[2];
    assert BrandAliases[3].0 == keys[4];
    assert BrandAliases[4].0 == keys[9];
  }

  /** Given a scorer that picks one of its choices, every brand found names a spreadsheet. */
  lemma CanonicalBrandIsSheetKey(m: Option<Match>)
    requires m.Some? ==> m.value.choice in AllBrandNames()
    ensures CanonicalBrand(m).Some? ==> CanonicalBrand(m).value in Keys(BrandSheets)
  {
    AliasBrandsAreSheetKeys();
    if m.Some? && m.value.score >= 70.0 && FirstMatch(BrandAliases, Lists, m.value.choice, 0).None? {
      var best := m.value.choice;
      ConcatMember(Values(BrandAliases), best);
      assert forall i :: 0 <= i < |BrandAliases| ==> !Lists(BrandAliases[i], best);
      assert best in Keys(BrandSheets) + Concat(Values(BrandAliases));
    }
  }
}
