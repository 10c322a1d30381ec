/**
  The LINE message handler (`handle_message`): the permission gate, the
  whitespace normalisation of the message, the two shortcut commands, the
  brand-and-model parse, and the choice between the 富美家 main-sheet route
  and the merged brand table.
*/
module Bot {
  import opened Wrappers
  import opened PyStr
  import opened OrderedDict
  import opened Config
  import opened Lookup
  import opened Permission

  const HotSheetVariable: string := "HOT_SHEET_URL"
  const TechSheetVariable: string := "TECH_SHEET_URL"
  const BrandWord: string := "品牌"
  const ModelWord: string := "型號"

  /** `" ".join(text.strip().split())`. */
  function Normalize(text: string): string {
    JoinWith(' ', Split(Strip(text)))
  }

  /** Normalising keeps the words of the message. */
  lemma NormalizeWords(text: string)
    ensures Split(Normalize(text)) == Split(text)
  {
    SplitStrip(text);
    SplitAreWords(Strip(text));
    SplitJoin(Split(Strip(text)));
  }

  /** Normalising twice is normalising once. */
  lemma NormalizeIdempotent(text: string)
    ensures Normalize(Normalize(text)) == Normalize(text)
  {
    NormalizeWords(text);
    SplitStrip(Normalize(text));
    SplitStrip(text);
  }

  /** A single word splits into itself. */
  lemma SplitWord(w: string)
    requires IsWord(w)
    ensures Split(w) == [w]
  {
    SplitJoin([w]);
  }

  /** What a normalised message asks for. */
  datatype Command =
    | HotPicks
    | TechInfo
    | Query(brand: string, model: string)
    | Unrecognised

  /**
    The shortcuts are compared with the whole normalised message first; otherwise two
    words are brand and model, and four words `品牌 <brand> 型號 <model>` are too.
  */
  function ParseMessage(message: string): Command {
    if message == HotPicksCommand then HotPicks
    else if message == TechInfoCommand then TechInfo
    else
      var words := Split(message);
      if |words| == 2 then Query(words[0], words[1])
      else if |words| == 4 && words[0] == BrandWord && words[2] == ModelWord then Query(words[1], words[3])
      else Unrecognised
  }

  /** A normalised message is a shortcut exactly when the message's only word is that shortcut. */
  lemma NormalizeIsWord(text: string, w: string)
    requires IsWord(w)
    ensures Normalize(text) == w <==> Split(text) == [w]
  {
    NormalizeWords(text);
    SplitWord(w);
    SplitStrip(text);
  }

  /**
    The parse of a message, stated on the words of the message as sent: a message
    whose only word is a shortcut is that shortcut; two words are brand and model;
    four words with 品牌 and 型號 in first and third place give the second and fourth;
    everything else is unrecognised.
  */
  lemma ParseByWords(text: string)
    ensures var words := Split(text);
      ParseMessage(Normalize(text)) ==
        if words == [HotPicksCommand] then HotPicks
        else if words == [TechInfoCommand] then TechInfo
        else if |words| == 2 then Query(words[0], words[1])
        else if |words| == 4 && words[0] == BrandWord && words[2] == ModelWord then Query(words[1], words[3])
        else Unrecognised
  {
    assert IsWord(HotPicksCommand) && IsWord(TechInfoCommand);
    NormalizeIsWord(text, HotPicksCommand);
    NormalizeIsWord(text, TechInfoCommand);
    NormalizeWords(text);
  }

  /** Brand and model of a query are single words of the message. */
  lemma QueryWordsAreWords(text: string)
    ensures var c := ParseMessage(Normalize(text));
      c.Query? ==> IsWord(c.brand) && IsWord(c.model) && c.brand in Split(text) && c.model in Split(text)
  {
    ParseByWords(text);
    SplitAreWords(text);
  }

  /** The lines of a record's context: `key: value` per column, in column order. */
  function RecordLines(record: Record): (lines: seq<string>)
    ensures |lines| == |record|
    ensures forall i :: 0 <= i < |record| ==> lines[i] == record[i].0 + ": " + record[i].1
  {
    seq(|record|, i requires 0 <= i < |record| => record[i].0 + ": " + record[i].1)
  }

  /** `"\n".join(f"{key}: {value}" for key, value in record.items())`. */
  function FormatRecord(record: Record): string {
    JoinWith('\n', RecordLines(record))
  }

  /** The context can be split back into its lines when no header or cell holds a line break. */
  lemma FormatRecordLines(record: Record)
    requires record != []
    requires forall i :: 0 <= i < |record| ==> '\n' !in record[i].0 && '\n' !in record[i].1
    ensures SplitOn('\n', FormatRecord(record)) == RecordLines(record)
  {
    var lines := RecordLines(record);
    forall i | 0 <= i < |lines| ensures '\n' !in lines[i] {
      assert lines[i] == record[i].0 + ": " + record[i].1;
    }
    SplitOnJoin('\n', lines);
  }

  /** What the bot sends back. */
  datatype Reply =
    /** The instruction text, `InstructionText`. */
    | Instructions
    | Say(text: string)
    /** The language model's answer to `question`, given the sheet data `context`. */
    | AskModel(question: string, context: string)
    /** The handler raised before replying. */
    | NoReply

  /** The fuzzy scorer: the best choice among the brand names, if any, with its score. */
  type Scorer = string -> Option<Match>

  /**
    The 富美家 route: main sheet to sub-sheet key, sub-sheet to row. Every failure
    gives the instructions; a row found asks the language model the message.
  */
  function MainBrandReply(message: string, model: string, env: Env, drive: Drive): (r: Reply)
    ensures r.Instructions? || (r.AskModel? && r.question == message)
  {
    match MainSheetSubsheet(env, drive, model)
    case None => Instructions
    case Some(key) =>
      if key !in Keys(SubsheetSheets) then Instructions
      else
        match SubsheetRow(env, drive, key, model)
        case None => Instructions
        case Some(row) => if row == [] then Instructions else AskModel(message, FormatRecord(row))
  }

  /**
    Any other brand: the merged table, then the exact or leading-zero lookup. A model
    not found gives the instructions; a record found asks the language model the message.
  */
  function OtherBrandReply(message: string, brand: string, model: string, env: Env, drive: Drive): (r: Reply)
    ensures r.Instructions? || r.NoReply? || (r.AskModel? && r.question == message)
  {
    match BrandData(env, drive, brand)
    case None => Instructions
    case Some(table) =>
      match ResolveModel(table, model)
      case Found(_, record) => AskModel(message, FormatRecord(record))
      case NotFound => Instructions
      case KeyMissing => NoReply
  }

  /** A query: normalise the model, canonicalise the brand, and take the brand's route. */
  function QueryReply(message: string, brand: string, model: string, env: Env, drive: Drive, scorer: Scorer): (r: Reply)
    ensures r.Instructions? || r.NoReply? || (r.AskModel? && r.question == message)
  {
    var query := NormModel(model);
    match CanonicalBrand(scorer(brand))
    case None => Instructions
    case Some(b) =>
      if b == MainBrand then MainBrandReply(message, query, env, drive)
      else OtherBrandReply(message, b, query, env, drive)
  }

  /** The reply to a permitted user's message; the language model is only ever asked the normalised message. */
  function Respond(text: string, env: Env, drive: Drive, scorer: Scorer): (r: Reply)
    ensures r.AskModel? ==> r.question == Normalize(text)
  {
    var message := Normalize(text);
    match ParseMessage(message)
    case HotPicks => Say(HotPicksHeading + GetEnv(env, HotSheetVariable, HotPicksUnset))
    case TechInfo => Say(TechInfoHeading + GetEnv(env, TechSheetVariable, TechInfoUnset))
    case Unrecognised => Instructions
    case Query(brand, model) => QueryReply(message, brand, model, env, drive, scorer)
  }

  /** A shortcut, alone in the message, gets its heading and link whatever the sheets hold. */
  lemma ShortcutReplies(text: string, env: Env, drive: Drive, scorer: Scorer)
    ensures Split(text) == [HotPicksCommand] ==>
      Respond(text, env, drive, scorer) == Say(HotPicksHeading + GetEnv(env, HotSheetVariable, HotPicksUnset))
    ensures Split(text) == [TechInfoCommand] ==>
      Respond(text, env, drive, scorer) == Say(TechInfoHeading + GetEnv(env, TechSheetVariable, TechInfoUnset))
  {
    ParseByWords(text);
  }

  /** A message of any other shape than a shortcut, two words, or `品牌 x 型號 y` gets the instructions. */
  lemma MalformedGetsInstructions(text: string, env: Env, drive: Drive, scorer: Scorer)
    requires Split(text) != [HotPicksCommand] && Split(text) != [TechInfoCommand]
    requires |Split(text)| != 2
    requires !(|Split(text)| == 4 && Split(text)[0] == BrandWord && Split(text)[2] == ModelWord)
    ensures Respond(text, env, drive, scorer) == Instructions
  {
    ParseByWords(text);
  }

  /**
    A query, in either of its two forms, whose brand the scorer does not recognise
    with a score of at least 70 gets the instructions.
  */
  lemma UnknownBrandGetsInstructions(text: string, env: Env, drive: Drive, scorer: Scorer, brand: string, model: string)
    requires ParseMessage(Normalize(text)) == Query(brand, model)
    requires scorer(brand).None? || scorer(brand).value.score < 70.0
    ensures Respond(text, env, drive, scorer) == Instructions
  {
  }

  /** The model of a query, normalised, is never empty. */
  lemma QueryModelNonEmpty(w: string)
    requires IsWord(w)
    ensures NormModel(NormModel(w)) != ""
  {
    StripTrimmed(w);
    NormModelIdempotent(w);
  }

  /**
    The 富美家 route of a query: the instructions when the 總表 has no qualifying row
    for the model or the sub-sheet it names has no matching row; otherwise the
    language model is asked the message, with that first matching row as context.
  */
  lemma MainBrandRoute(text: string, env: Env, drive: Drive, scorer: Scorer, brand: string, model: string)
    requires ParseMessage(Normalize(text)) == Query(brand, model)
    requires CanonicalBrand(scorer(brand)) == Some(MainBrand)
    ensures var query := NormModel(model);
      var key := MainSheetSubsheet(env, drive, query);
      var row := if key.Some? then SubsheetRow(env, drive, key.value, query) else None;
      Respond(text, env, drive, scorer) ==
        if row.None? then Instructions else AskModel(Normalize(text), FormatRecord(row.value))
  {
    QueryWordsAreWords(text);
    QueryModelNonEmpty(model);
    var query := NormModel(model);
    var key := MainSheetSubsheet(env, drive, query);
    MainSheetSubsheetListed(env, drive, query);
    if key.Some? {
      MatchedRowNonEmpty(env, drive, key.value, query);
    }
  }

  /**
    Another brand's route: the instructions exactly when the brand's table is
    missing or empty, or no key agrees with the model, with or without leading
    zeros; otherwise the language model is asked the message, with the record the
    lookup settles on as context.
  */
  lemma OtherBrandAnswers(message: string, brand: string, model: string, env: Env, drive: Drive)
    ensures var r := OtherBrandReply(message, brand, model, env, drive);
      var data := BrandData(env, drive, brand);
      && (r == Instructions <==>
            data.None? || (model !in Keys(data.value)
                           && forall i :: 0 <= i < |data.value| ==> LStripZeros(data.value[i].0) != LStripZeros(model)))
      && (r != Instructions ==>
            data.Some? && exists i :: ResolvedAt(data.value, model, i)
                                       && r == AskModel(message, FormatRecord(data.value[i].1)))
  {
    var data := BrandData(env, drive, brand);
    if data.Some? {
      var sheets := drive[SheetId(BrandSheets, env, brand).value];
      var table := data.value;
      BrandTableWellKeyed(sheets);
      BrandTableResolves(sheets, model);
      ResolveNotFound(table, model);
      OtherBrandReplyOf(message, brand, model, env, drive, table);
      if ResolveModel(table, model).Found? {
        var i := ResolveFoundEntry(table, model);
      }
    }
  }

  /**
    A query for a brand other than 富美家, in either form: the instructions exactly
    when the brand's table is missing or empty or nothing agrees with the model;
    otherwise the normalised message goes to the language model with the record
    the lookup settles on.
  */
  lemma OtherBrandRoute(text: string, env: Env, drive: Drive, scorer: Scorer, brand: string, model: string, canonical: string)
    requires ParseMessage(Normalize(text)) == Query(brand, model)
    requires CanonicalBrand(scorer(brand)) == Some(canonical) && canonical != MainBrand
    ensures var r := Respond(text, env, drive, scorer);
      var data := BrandData(env, drive, canonical);
      var query := NormModel(model);
      && (r == Instructions <==>
            data.None? || (query !in Keys(data.value)
                           && forall i :: 0 <= i < |data.value| ==> LStripZeros(data.value[i].0) != LStripZeros(query)))
      && (r != Instructions ==>
            data.Some? && exists i :: ResolvedAt(data.value, query, i)
                                       && r == AskModel(Normalize(text), FormatRecord(data.value[i].1)))
  {
    OtherBrandAnswers(Normalize(text), canonical, NormModel(model), env, drive);
  }

  /** Another brand's route never raises: the merged table's keys are already normalised. */
  lemma OtherBrandAlwaysReplies(message: string, brand: string, model: string, env: Env, drive: Drive)
    ensures !OtherBrandReply(message, brand, model, env, drive).NoReply?
  {
    var id := SheetId(BrandSheets, env, brand);
    if id.Some? && id.value in drive {
      BrandTableResolves(drive[id.value], model);
    }
  }

  /** The bot always replies to a permitted user: no lookup raises. */
  lemma AlwaysReplies(text: string, env: Env, drive: Drive, scorer: Scorer)
    ensures !Respond(text, env, drive, scorer).NoReply?
  {
    var message := Normalize(text);
    var command := ParseMessage(message);
    if command.Query? {
      var brand := CanonicalBrand(scorer(command.brand));
      if brand.Some? && brand.value != MainBrand {
        OtherBrandAlwaysReplies(message, brand.value, NormModel(command.model), env, drive);
      }
    }
  }

  /** Another brand's reply, once its table is known. */
  lemma OtherBrandReplyOf(message: string, brand: string, model: string, env: Env, drive: Drive, table: Dict<Record>)
    requires BrandData(env, drive, brand) == Some(table)
    ensures OtherBrandReply(message, brand, model, env, drive) ==
      match ResolveModel(table, model)
      case Found(_, record) => AskModel(message, FormatRecord(record))
      case NotFound => Instructions
      case KeyMissing => NoReply
  {
  }

  /**
    Another brand's route answers a digit model whose padded form is a key of the
    brand's table, with the record of a key that agrees with the model once leading
    zeros are dropped.
  */
  lemma OtherBrandFindsPaddedModel(message: string, brand: string, model: string, env: Env, drive: Drive, id: string)
    requires SheetId(BrandSheets, env, brand) == Some(id) && id in drive
    requires IsDigit(model) && |model| <= KeyWidth && ZFill(model, KeyWidth) in Keys(BrandTable(drive[id]))
    ensures var table := BrandTable(drive[id]);
      exists i :: && 0 <= i < |table| && LStripZeros(table[i].0) == LStripZeros(model)
                  && OtherBrandReply(message, brand, model, env, drive) == AskModel(message, FormatRecord(table[i].1))
  {
    var table := BrandTable(drive[id]);
    BrandTableWellKeyed(drive[id]);
    var i := PaddedEntry(table, model);
    OtherBrandReplyOf(message, brand, model, env, drive, table);
  }

  /**
    For a brand other than 富美家, a digit model of at most ten digits typed without
    its leading zeros reaches the language model, with the record of a key that
    agrees with it once leading zeros are dropped, when the brand's table has a row
    of that model.
  */
  lemma PaddedModelAnswered(text: string, env: Env, drive: Drive, scorer: Scorer, brand: string, model: string, id: string)
    requires ParseMessage(Normalize(text)) == Query(brand, model)
    requires var b := CanonicalBrand(scorer(brand));
      b.Some? && b.value != MainBrand && SheetId(BrandSheets, env, b.value) == Some(id)
    requires id in drive
    requires var query := NormModel(model);
      IsDigit(query) && |query| <= KeyWidth && ZFill(query, KeyWidth) in Keys(BrandTable(drive[id]))
    ensures var table := BrandTable(drive[id]);
      exists i :: && 0 <= i < |table| && LStripZeros(table[i].0) == LStripZeros(NormModel(model))
                  && Respond(text, env, drive, scorer) == AskModel(Normalize(text), FormatRecord(table[i].1))
  {
    var canonical := CanonicalBrand(scorer(brand)).value;
    OtherBrandFindsPaddedModel(Normalize(text), canonical, NormModel(model), env, drive, id);
  }

  /**
    `handle_message`: check the sender's permission (which updates the ledger), then
    reply. A refused sender gets the no-permission text.
  */
  method HandleMessage(ledger: PermissionLedger, userId: string, text: string, now: string,
                       reachable: bool, writable: bool, env: Env, drive: Drive, scorer: Scorer)
    returns (reply: Reply)
    modifies ledger
    ensures var (allowed, rows) := PermissionStep(old(ledger.rows), userId, now, reachable, writable);
      && ledger.rows == rows
      && reply == if allowed then Respond(text, env, drive, scorer) else Say(NoPermissionText)
    ensures !reply.NoReply?
  {
    var allowed := ledger.CheckUserPermission(userId, now, reachable, writable);
    if !allowed {
      reply := Say(NoPermissionText);
    } else {
      reply := Respond(text, env, drive, scorer);
      AlwaysReplies(text, env, drive, scorer);
    }
  }
}
