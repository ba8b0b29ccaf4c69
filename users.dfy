/**
 * The user records of user.go and their fetcher in fetch_users.go: the parser of the
 * "lang|level,lang|level" strings the user query concatenates, the Prepare step that fills the
 * known and learnt language lists, the text of the user query, and the sharded cursor loop that
 * prepares every user before sending it.
 */
module Users {
  import opened Base
  import opened Strings
  import opened Cursor

  // ------------------------------------------------------------------ language levels

  /**
   * One known or learnt language with its level. The Known rows (table user_langs) and the Learn
   * rows (table user_langs_learn) have the same shape; their UserId is never filled by Prepare.
   */
  datatype LangLevel = LangLevel(lang: string, level: nat)

  const KnownTable: string := "user_langs"
  const LearnTable: string := "user_langs_learn"

  /**
   * One ","-piece: the language before the first "|" and the level after it, read with
   * strconv.ParseUint(_, 10, 8). A piece without "|" (so `parts[1]` is out of range) or with a
   * level that is not a decimal below 256 is a failure: Prepare panics.
   */
  function ParseLangLevel(piece: string): Option<LangLevel>
  {
    var parts := Split(piece, '|');
    if |parts| < 2 then None
    else match ParseUint8(parts[1])
      case None => None
      case Some(level) => Some(LangLevel(parts[0], level))
  }

  /** The pieces parsed in order; None as soon as one of them fails. */
  function ParseAll(pieces: seq<string>): Option<seq<LangLevel>>
  {
    if pieces == [] then Some([])
    else match ParseAll(Init(pieces))
      case None => None
      case Some(ls) =>
        match ParseLangLevel(Last(pieces))
        case None => None
        case Some(l) => Some(ls + [l])
  }

  /** What Prepare appends for one info string: nothing for "", else one entry per ","-piece. */
  function LangsOf(info: string): Option<seq<LangLevel>>
  {
    if info == "" then Some([]) else ParseAll(Split(info, ','))
  }

  /**
   * The pieces parse exactly when every one of them does, and then entry i is piece i's
   * language and level.
   */
  lemma {:induction false} ParseAllSpec(pieces: seq<string>)
    ensures ParseAll(pieces).Some? <==> forall i :: 0 <= i < |pieces| ==> ParseLangLevel(pieces[i]).Some?
    ensures ParseAll(pieces).Some? ==>
              |ParseAll(pieces).value| == |pieces| &&
              forall i :: 0 <= i < |pieces| ==> Some(ParseAll(pieces).value[i]) == ParseLangLevel(pieces[i])
  {
    if pieces != [] {
      var init := Init(pieces);
      ParseAllSpec(init);
      assert forall i :: 0 <= i < |init| ==> init[i] == pieces[i];
      assert pieces == init + [Last(pieces)];
    }
  }

  lemma JoinSingle(p: string, sep: char)
    ensures Join([p], sep) == p
  {
  }

  /** A piece with no "|" in it is a failure; one with a "|" fails exactly when its level does. */
  lemma ParseLangLevelSpec(piece: string)
    ensures '|' !in piece ==> ParseLangLevel(piece) == None
    ensures '|' in piece ==>
              |Split(piece, '|')| >= 2 &&
              ParseLangLevel(piece) ==
                match ParseUint8(Split(piece, '|')[1])
                case None => None
                case Some(level) => Some(LangLevel(Split(piece, '|')[0], level))
  {
    if '|' !in piece {
      SplitNoSeparator(piece, '|');
    } else {
      JoinSplit(piece, '|');
    }
  }

  /** How the user query's GROUP_CONCAT(CONCAT_WS('|', lang, level) SEPARATOR ',') renders a list. */
  function RenderLang(l: LangLevel): string
  {
    l.lang + "|" + NatToDecimal(l.level)
  }

  function RenderLangs(ls: seq<LangLevel>): string
  {
    Join(seq(|ls|, i requires 0 <= i < |ls| => RenderLang(ls[i])), ',')
  }

  /** A language name free of both separators, with a level that fits in a uint8. */
  predicate Renderable(l: LangLevel)
  {
    ',' !in l.lang && '|' !in l.lang && l.level < 256
  }

  lemma DigitsHaveNoSeparator(s: string, c: char)
    requires IsDigits(s) && !('0' <= c <= '9')
    ensures c !in s
  {
  }

  lemma RenderLangParses(l: LangLevel)
    requires Renderable(l)
    ensures ',' !in RenderLang(l)
    ensures ParseLangLevel(RenderLang(l)) == Some(l)
  {
    var dec := NatToDecimal(l.level);
    DigitsHaveNoSeparator(dec, '|');
    DigitsHaveNoSeparator(dec, ',');
    assert RenderLang(l) == l.lang + ['|'] + dec;
    SplitAfterPiece(l.lang, '|', dec);
    SplitNoSeparator(dec, '|');
    ParseUint8OfDecimal(l.level);
  }

  /**
   * Round trip: a non-empty list of renderable entries, concatenated as the query does, is
   * parsed back by Prepare into exactly the same list.
   */
  lemma LangsRoundTrip(ls: seq<LangLevel>)
    requires ls != []
    requires forall i :: 0 <= i < |ls| ==> Renderable(ls[i])
    ensures LangsOf(RenderLangs(ls)) == Some(ls)
  {
    var pieces := seq(|ls|, i requires 0 <= i < |ls| => RenderLang(ls[i]));
    forall i | 0 <= i < |pieces|
      ensures ',' !in pieces[i] && ParseLangLevel(pieces[i]) == Some(ls[i])
    {
      RenderLangParses(ls[i]);
    }
    SplitJoin(pieces, ',');
    assert '|' in pieces[0] by {
      assert pieces[0][|ls[0].lang|] == '|';
    }
    assert RenderLangs(ls) != "" by {
      JoinSplit(RenderLangs(ls), ',');
      assert Split(RenderLangs(ls), ',')[0] == pieces[0];
    }
    ParseAllSpec(pieces);
    var parsed := ParseAll(pieces).value;
    assert |parsed| == |ls|;
    forall i | 0 <= i < |ls| ensures parsed[i] == ls[i] {
      assert Some(parsed[i]) == ParseLangLevel(pieces[i]);
    }
    assert parsed == ls;
  }

  // ------------------------------------------------------------------ users

  /**
   * A row of the user query. `profile` holds the other JSON-tagged columns (signup, name, age,
   * city, the lfor_* flags, the profile texts ...) under their JSON names; learninfo and
   * knowninfo are the concatenated language strings, never serialised.
   */
  datatype User = User(
    id: nat,
    sex: string,
    sexBool: bool,
    learninfo: string,
    knowninfo: string,
    known: seq<LangLevel>,
    learn: seq<LangLevel>,
    profile: map<string, Json>)
  {
    function TableName(): string
    {
      "users"
    }

    function GetId(): nat
    {
      id
    }

    function GetIndex(): string
    {
      "users"
    }

    function GetType(): string
    {
      "users"
    }

    function GetParent(): Option<nat>
    {
      None
    }

    /**
     * The record after Prepare, or None when Prepare panics: sex_bool is set from the sex
     * column, and the parsed learnt and known languages are appended to the lists already there.
     */
    function Prepared(): Option<User>
    {
      match LangsOf(learninfo)
      case None => None
      case Some(l) =>
        match LangsOf(knowninfo)
        case None => None
        case Some(k) => Some(this.(sexBool := sex == "female", learn := learn + l, known := known + k))
    }

    /** The two parsing loops of Prepare, the learnt languages first. */
    method Prepare() returns (r: Option<User>)
      ensures r == Prepared()
    {
      var learnt := AppendLangs(learn, learninfo);
      if learnt.None? {
        return None;
      }
      var knowns := AppendLangs(known, knowninfo);
      if knowns.None? {
        return None;
      }
      r := Some(this.(sexBool := sex == "female", learn := learnt.value, known := knowns.value));
    }
  }

  /**
   * One `if info != ""` block of Prepare: split on ",", split each piece on "|", parse the level
   * and append; a failure ends the whole run.
   */
  method AppendLangs(list: seq<LangLevel>, info: string) returns (r: Option<seq<LangLevel>>)
    ensures r.Some? <==> LangsOf(info).Some?
    ensures r.Some? ==> r.value == list + LangsOf(info).value
  {
    if info == "" {
      return Some(list);
    }
    var languagesInfo := Split(info, ',');
    var out := list;
    var i := 0;
    while i < |languagesInfo|
      invariant 0 <= i <= |languagesInfo|
      invariant ParseAll(languagesInfo[..i]).Some?
      invariant out == list + ParseAll(languagesInfo[..i]).value
    {
      var parts := Split(languagesInfo[i], '|');
      assert languagesInfo[..i + 1] == languagesInfo[..i] + [languagesInfo[i]];
      assert Init(languagesInfo[..i + 1]) == languagesInfo[..i];
      if |parts| < 2 {
        ParseAllSpec(languagesInfo);
        return None;
      }
      var level := ParseUint8(parts[1]);
      if level.None? {
        ParseAllSpec(languagesInfo);
        return None;
      }
      out := out + [LangLevel(parts[0], level.value)];
      i := i + 1;
    }
    assert languagesInfo[..i] == languagesInfo;
    r := Some(out);
  }

  /** sex_bool is true exactly for "female"; the id and the language strings are untouched. */
  lemma PreparedSex(u: User)
    requires u.Prepared().Some?
    ensures u.Prepared().value.sexBool <==> u.sex == "female"
    ensures u.Prepared().value.id == u.id
    ensures u.Prepared().value.learninfo == u.learninfo && u.Prepared().value.knowninfo == u.knowninfo
  {
  }

  /** An empty language string leaves its list as it was. */
  lemma PreparedEmpty(u: User)
    requires u.Prepared().Some?
    ensures u.learninfo == "" ==> u.Prepared().value.learn == u.learn
    ensures u.knowninfo == "" ==> u.Prepared().value.known == u.known
  {
  }

  /**
   * Prepare fails exactly when some ","-piece of a non-empty language string has no "|" or a
   * level outside 0..255; otherwise it appends one entry per piece, in order.
   */
  lemma PreparedPieces(u: User, info: string)
    requires info == u.learninfo || info == u.knowninfo
    requires info != ""
    ensures LangsOf(info).None? ==> u.Prepared().None?
    ensures LangsOf(info).None? <==> exists i :: 0 <= i < |Split(info, ',')| && ParseLangLevel(Split(info, ',')[i]).None?
    ensures LangsOf(info).Some? ==>
              |LangsOf(info).value| == |Split(info, ',')| &&
              forall i :: 0 <= i < |Split(info, ',')| ==>
                var parts := Split(Split(info, ',')[i], '|');
                |parts| >= 2 && LangsOf(info).value[i] == LangLevel(parts[0], ParseUint8(parts[1]).value)
  {
    var pieces := Split(info, ',');
    ParseAllSpec(pieces);
    assert LangsOf(info) == ParseAll(pieces);
    if LangsOf(info).None? {
      var i :| 0 <= i < |pieces| && ParseLangLevel(pieces[i]).None?;
      assert 0 <= i < |Split(info, ',')| && ParseLangLevel(Split(info, ',')[i]).None?;
      if info == u.learninfo {
        assert u.Prepared().None?;
      } else {
        assert LangsOf(u.knowninfo).None?;
      }
    } else {
      forall i | 0 <= i < |pieces|
        ensures |Split(pieces[i], '|')| >= 2
        ensures LangsOf(info).value[i] == LangLevel(Split(pieces[i], '|')[0], ParseUint8(Split(pieces[i], '|')[1]).value)
      {
        assert ParseLangLevel(pieces[i]) == Some(LangsOf(info).value[i]);
      }
    }
  }

  /**
   * Prepare appends rather than resets: preparing a prepared user appends the same entries a
   * second time.
   */
  lemma PrepareTwice(u: User)
    requires u.Prepared().Some?
    ensures u.Prepared().value.Prepared().Some?
    ensures u.Prepared().value.Prepared().value.learn == u.learn + LangsOf(u.learninfo).value + LangsOf(u.learninfo).value
    ensures u.Prepared().value.Prepared().value.known == u.known + LangsOf(u.knowninfo).value + LangsOf(u.knowninfo).value
  {
  }

  /** The JSON of one language entry (UserId is tagged "-"). */
  function LangJson(l: LangLevel): Json
  {
    JObject(map["level" := JNum(l.level), "lang" := JStr(l.lang)])
  }

  function LangsJson(ls: seq<LangLevel>): seq<Json>
  {
    seq(|ls|, i requires 0 <= i < |ls| => LangJson(ls[i]))
  }

  /** The fields tagged `json:"-"`, which the encoder leaves out. */
  predicate Hidden(k: string)
  {
    k == "id" || k == "learninfo" || k == "knowninfo"
  }

  /** The fields the model keeps outside `profile`. */
  predicate Explicit(k: string)
  {
    k == "sex" || k == "sex_bool" || k == "known" || k == "learn"
  }

  /**
   * GetSearchData returns the record itself; this is the document the encoder makes of it: the
   * profile columns, sex, sex_bool and the two language lists. Id, learninfo and knowninfo are
   * tagged "-" and stay out.
   */
  function UserBody(u: User): (body: map<string, Json>)
    ensures forall k :: Hidden(k) ==> k !in body
    ensures "sex_bool" in body && body["sex_bool"] == JBool(u.sexBool)
    ensures "known" in body && body["known"] == JList(LangsJson(u.known))
    ensures "learn" in body && body["learn"] == JList(LangsJson(u.learn))
    ensures forall k :: k in u.profile && !Hidden(k) && !Explicit(k) ==> k in body && body[k] == u.profile[k]
    ensures forall k :: k in body ==> k in u.profile || Explicit(k)
  {
    (map k | k in u.profile && !Hidden(k) :: u.profile[k])
    + map["sex" := JStr(u.sex), "sex_bool" := JBool(u.sexBool),
          "known" := JList(LangsJson(u.known)), "learn" := JList(LangsJson(u.learn))]
  }

  // ------------------------------------------------------------------ the user query

  /** The selected columns, the two GROUP_CONCAT sub-queries included. */
  const UsersColumns: string :=
    "u.id,\n\t\tu.name,\n\t\tu.username,\n\t\tu.last_login,\n\t\tu.signup,\n\t\t"
    + "u.modified,\n\t\tu.sex,\n\t\tu.tz,\n\t\tu.city,\n\t\tu.wg_id,\n\t\t"
    + "u.country,\n\t\tu.iso2,\n\t\tu.website,\n\t\tu.main_photo_id,\n\t\tu.photo_exists,\n\t\t"
    + "u.main_thumb,\n\t\tu.cont,\n\t\tu.age,\n\t\tu.birth,\n\t\tu.lfor_friend,\n\t\t"
    + "u.lfor_langex,\n\t\tu.lfor_relation,\n\t\tu.lfor_snail,\n\t\tu.lfor_meet,\n\t\tpt.description,\n\t\t"
    + "pt.books,\n\t\tpt.hobbies,\n\t\tpt.movies,\n\t\tpt.requests,\n\t\tpt.music,\n\t\t"
    + "pt.quotes,\n\t\tpt.tv,\n\t\tpt.langex_desc,\n\t\tu.education_level,\n\t\tu.education_desc,\n\t\t"
    + "u.occupation,\n\t\tu.relationship,\n\t\t"
    + "(SELECT GROUP_CONCAT(CONCAT_WS('|', known.lang, known.level) SEPARATOR ',')\n\t\t"
    + "FROM user_langs known WHERE known.user_id = u.id) as knowninfo,\n\t\t"
    + "(SELECT GROUP_CONCAT(CONCAT_WS('|', learn.lang, learn.level) SEPARATOR ',')\n\t\t"
    + "FROM user_langs_learn learn WHERE learn.user_id = u.id) as learninfo,\n\n\t\t"
    + "u.city_name_en,\n\t\tu.city_id,\n\t\tu.region_id,\n\t\tu.country_code,\n\n\t\t"
    + "u.home_city_name_en,\n\t\tu.home_city_id,\n\t\tu.home_region_id,\n\t\tu.home_country_code"

  const FromUsers: string := "\n\n\tFROM users u\n\tLEFT JOIN profiles_text pt ON u.id = pt.id\n\t"
  const ActiveFilter: string := "\n\tactivated = 1\n\tAND searchable = 1\n\tORDER BY "
  const LimitClause: string := "\n\tLIMIT "

  /** Everything up to and including "WHERE ", around a column list. */
  function QueryHead(columns: string): string
  {
    "\n\tSELECT\n\t\t" + columns + FromUsers + "WHERE "
  }

  /** The template of createSelectUsersQuery around a column list. */
  function QueryText(columns: string, order: string, limit: string, condition: string): string
  {
    QueryHead(columns) + condition + ActiveFilter + order + LimitClause + limit
  }

  /** createSelectUsersQuery: the condition goes between "WHERE " and the activity filter. */
  function SelectUsersQuery(order: string, limit: string, condition: string): string
  {
    QueryText(UsersColumns, order, limit, condition)
  }

  /**
   * The condition of createSelectUsersQuery sits right after "WHERE " and right before
   * "activated = 1 AND searchable = 1", whatever the column list.
   */
  lemma QueryConditionPlace(columns: string, order: string, limit: string, condition: string)
    ensures var q := QueryText(columns, order, limit, condition);
      var h := |QueryHead(columns)|;
      h >= 6 && q[h - 6..h] == "WHERE " &&
      q[h..h + |condition|] == condition &&
      q[h + |condition|..h + |condition| + |ActiveFilter|] == ActiveFilter
  {
    var pre := "\n\tSELECT\n\t\t" + columns + FromUsers;
    var tail := order + LimitClause + limit;
    assert QueryText(columns, order, limit, condition) == pre + "WHERE " + condition + ActiveFilter + tail;
    Middle(pre, "WHERE ", condition + ActiveFilter + tail);
    Middle(pre + "WHERE ", condition, ActiveFilter + tail);
    Middle(pre + "WHERE " + condition, ActiveFilter, tail);
    AppendAssoc(pre, "WHERE ", condition + ActiveFilter + tail);
    AppendAssoc(pre + "WHERE ", condition, ActiveFilter + tail);
    AppendAssoc(pre + "WHERE " + condition, ActiveFilter, tail);
  }

  /** The middle part of a three-part concatenation. */
  lemma Middle(a: string, b: string, c: string)
    ensures (a + b + c)[|a|..|a| + |b|] == b
  {
  }

  /** createSelectUsersQuery ends with "ORDER BY <order>", then "LIMIT <limit>". */
  lemma QueryOrderAndLimit(columns: string, order: string, limit: string, condition: string)
    ensures var q := QueryText(columns, order, limit, condition);
      q[|q| - |limit|..] == limit &&
      q[|q| - |limit| - |LimitClause| - |order|..|q| - |limit| - |LimitClause|] == order
  {
    var front := QueryHead(columns) + condition + ActiveFilter;
    var tail := order + (LimitClause + limit);
    assert QueryText(columns, order, limit, condition) == front + tail;
    assert (front + tail)[|front| + |tail| - |limit|..] == tail[|tail| - |limit|..];
    assert (front + tail)[|front|..|front| + |order|] == tail[..|order|];
  }

  /** The cursor and shard of fetchUsers: "u.id > <lastId> AND u.id % <n> = <shard> AND ". */
  function ShardCondition(lastId: nat, n: nat, shard: nat): string
  {
    "u.id > " + NatToDecimal(lastId) + " AND u.id % " + NatToDecimal(n) + " = " + NatToDecimal(shard) + " AND "
  }

  /** The query of one page of fetchUsers. */
  function UsersPageQuery(lastId: nat, n: nat, shard: nat, limit: nat): string
  {
    SelectUsersQuery("id ASC", NatToDecimal(limit), ShardCondition(lastId, n, shard))
  }

  // ------------------------------------------------------------------ the fetch loop

  function UserKey(u: User): nat
  {
    u.id
  }

  /** Every user of the sequence prepared, in order; None when one of them panics. */
  function PreparedAll(us: seq<User>): Option<seq<User>>
  {
    if us == [] then Some([])
    else match PreparedAll(Init(us))
      case None => None
      case Some(vs) =>
        match Last(us).Prepared()
        case None => None
        case Some(v) => Some(vs + [v])
  }

  /** Some(a) followed by what `o` holds; None when `o` is None. */
  function Then(a: seq<User>, o: Option<seq<User>>): Option<seq<User>>
  {
    match o
    case None => None
    case Some(b) => Some(a + b)
  }

  lemma {:induction false} PreparedAllAppend(a: seq<User>, b: seq<User>)
    ensures PreparedAll(a + b) == match PreparedAll(a) case None => None case Some(x) => Then(x, PreparedAll(b))
    decreases |b|
  {
    if b == [] {
      assert a + b == a;
      if PreparedAll(a).Some? {
        assert PreparedAll(a).value + [] == PreparedAll(a).value;
      }
    } else {
      assert Init(a + b) == a + Init(b);
      assert Last(a + b) == Last(b);
      PreparedAllAppend(a, Init(b));
      if PreparedAll(a).Some? && PreparedAll(Init(b)).Some? && Last(b).Prepared().Some? {
        var x, y, v := PreparedAll(a).value, PreparedAll(Init(b)).value, Last(b).Prepared().value;
        assert x + y + [v] == x + (y + [v]);
      }
    }
  }

  /** Users prepared and sent: every user's id is unchanged by Prepare. */
  lemma {:induction false} PreparedAllIds(us: seq<User>)
    requires PreparedAll(us).Some?
    ensures |PreparedAll(us).value| == |us|
    ensures forall i :: 0 <= i < |us| ==> us[i].Prepared().Some? && PreparedAll(us).value[i] == us[i].Prepared().value
  {
    if us != [] {
      PreparedAllIds(Init(us));
      var vs := PreparedAll(Init(us)).value;
      assert PreparedAll(us).value == vs + [Last(us).Prepared().value];
      forall i | 0 <= i < |us|
        ensures us[i].Prepared().Some? && PreparedAll(us).value[i] == us[i].Prepared().value
      {
        if i < |us| - 1 {
          assert us[i] == Init(us)[i];
        }
      }
    }
  }

  /**
   * The inner `for rows.Next()` loop over one page: count the row, move the cursor to its id,
   * prepare it and send it.
   */
  method ReadUsersPage(page: seq<User>, lastId0: nat) returns (sent: Option<seq<User>>, lastId: nat, count: nat)
    ensures sent == PreparedAll(page)
    ensures sent.Some? ==> count == |page|
    ensures sent.Some? ==> lastId == if page == [] then lastId0 else Last(page).id
  {
    var out: seq<User> := [];
    lastId, count := lastId0, 0;
    while count < |page|
      invariant count <= |page|
      invariant PreparedAll(page[..count]) == Some(out)
      invariant lastId == if count == 0 then lastId0 else page[count - 1].id
    {
      var user := page[count];
      assert page[..count + 1] == page[..count] + [user];
      assert Init(page[..count + 1]) == page[..count];
      lastId := user.GetId();
      var prepared := user.Prepare();
      if prepared.None? {
        PreparedAllAppend(page[..count + 1], page[count + 1..]);
        assert page[..count + 1] + page[count + 1..] == page;
        return None, lastId, count + 1;
      }
      out := out + [prepared.value];
      count := count + 1;
    }
    assert page[..count] == page;
    sent := Some(out);
  }

  /**
   * fetchUsers: pages of `u.id > lastId AND u.id % n = shard ORDER BY id ASC LIMIT limit`
   * until a page is empty. It sends every user the cursor visits, prepared, in order, and adds
   * each page's row count to totalFetch (the returned `fetched`). A Prepare panic ends the run
   * with None.
   */
  method FetchUsers(table: seq<User>, n: nat, shard: nat, limit: nat) returns (sent: Option<seq<User>>, fetched: nat)
    ensures sent == PreparedAll(Visited(table, UserKey, 0, n, shard, limit))
    ensures sent.Some? ==> fetched == |Visited(table, UserKey, 0, n, shard, limit)|
  {
    var acc: seq<User> := [];
    var lastId: nat := 0;
    fetched := 0;
    if PreparedAll(Visited(table, UserKey, 0, n, shard, limit)).Some? {
      assert [] + PreparedAll(Visited(table, UserKey, 0, n, shard, limit)).value
        == PreparedAll(Visited(table, UserKey, 0, n, shard, limit)).value;
    }
    while true
      invariant Then(acc, PreparedAll(Visited(table, UserKey, lastId, n, shard, limit)))
                == PreparedAll(Visited(table, UserKey, 0, n, shard, limit))
      invariant fetched + |Visited(table, UserKey, lastId, n, shard, limit)| == |Visited(table, UserKey, 0, n, shard, limit)|
      decreases |RowsAfter(table, UserKey, lastId, n, shard)|
    {
      var page := Page(table, UserKey, lastId, n, shard, limit);
      var rest := Visited(table, UserKey, lastId, n, shard, limit);
      var pageSent, next, lastCount := ReadUsersPage(page, lastId);
      if pageSent.None? {
        PreparedAllAppend(page, Visited(table, UserKey, UserKey(Last(page)), n, shard, limit));
        return None, fetched;
      }
      if lastCount == 0 {
        assert acc + [] == acc;
        return Some(acc), fetched;
      }
      var tail := Visited(table, UserKey, next, n, shard, limit);
      assert rest == page + tail;
      RowsAfterShrinks(table, UserKey, lastId, next, n, shard, Last(page));
      PreparedAllAppend(page, tail);
      if PreparedAll(tail).Some? {
        assert acc + pageSent.value + PreparedAll(tail).value == acc + (pageSent.value + PreparedAll(tail).value);
      }
      acc := acc + pageSent.value;
      fetched := fetched + lastCount;
      lastId := next;
    }
  }

  /**
   * With unique ids in ascending order and a positive LIMIT, fetchUsers sends every user of
   * its shard exactly once, prepared, in id order.
   */
  lemma FetchUsersCoversShard(table: seq<User>, n: nat, shard: nat, limit: nat)
    requires StrictlySortedBy(table, UserKey) && limit > 0
    ensures Visited(table, UserKey, 0, n, shard, limit) == RowsAfter(table, UserKey, 0, n, shard)
    ensures forall u :: u in Visited(table, UserKey, 0, n, shard, limit) <==> u in table && InShard(u.id, n, shard) && u.id > 0
  {
    VisitedIsShard(table, UserKey, 0, n, shard, limit);
    RowsAfterMembers(table, UserKey, 0, n, shard);
  }
}
