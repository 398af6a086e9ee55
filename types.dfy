/**
  The closed label-to-code tables of the timetable portal and the shape of a
  free-classroom search request (`src/type.ts`). Each table is a datatype whose
  constructors are the labels; `Code` is the number the portal expects and
  `Label` the Chinese key of the source's constant object.
*/
module Types {
  import opened Wrappers
  import opened JsText

  /** 教室类型: the classroom type table. */
  datatype ClassroomType =
    | Ordinary        // 普通教室
    | MultimediaLarge // 多媒体大教室
    | MultimediaSmall // 多媒体小教室
    | LanguageLab     // 语音室
    | Unscheduled     // 不排课教室
    | Recording       // 录播教室
    | ComputerLab     // 机房
    | Activity        // 活动教室
    | Sports          // 体育教学场地
    | Smart           // 智慧教室
    | Laboratory      // 实验室
    | Seminar         // 研讨室
    | MultiPurpose    // 多功能
  {
    function Code(): int
    {
      match this
      case Ordinary => 1
      case MultimediaLarge => 2
      case MultimediaSmall => 3
      case LanguageLab => 4
      case Unscheduled => 5
      case Recording => 6
      case ComputerLab => 7
      case Activity => 8
      case Sports => 9
      case Smart => 10
      case Laboratory => 11
      case Seminar => 12
      case MultiPurpose => 21
    }

    function Label(): string
    {
      match this
      case Ordinary => "普通教室"
      case MultimediaLarge => "多媒体大教室"
      case MultimediaSmall => "多媒体小教室"
      case LanguageLab => "语音室"
      case Unscheduled => "不排课教室"
      case Recording => "录播教室"
      case ComputerLab => "机房"
      case Activity => "活动教室"
      case Sports => "体育教学场地"
      case Smart => "智慧教室"
      case Laboratory => "实验室"
      case Seminar => "研讨室"
      case MultiPurpose => "多功能"
    }
  }

  /** The classroom type a code stands for: the codes are exactly 1..12 and 21, one label each. */
  function ClassroomTypeFromCode(c: int): (r: Option<ClassroomType>)
    ensures r.Some? <==> (1 <= c <= 12 || c == 21)
    ensures forall t: ClassroomType :: r == Some(t) <==> t.Code() == c
  {
    match c
    case 1 => Some(Ordinary)
    case 2 => Some(MultimediaLarge)
    case 3 => Some(MultimediaSmall)
    case 4 => Some(LanguageLab)
    case 5 => Some(Unscheduled)
    case 6 => Some(Recording)
    case 7 => Some(ComputerLab)
    case 8 => Some(Activity)
    case 9 => Some(Sports)
    case 10 => Some(Smart)
    case 11 => Some(Laboratory)
    case 12 => Some(Seminar)
    case 21 => Some(MultiPurpose)
    case _ => None
  }

  /** 校区: the campus table. */
  datatype Campus =
    | Headquarters // 本部
    | Beidaihe     // 北戴河
    | NewCampus    // 新校区
  {
    function Code(): int
    {
      match this
      case Headquarters => 1
      case Beidaihe => 2
      case NewCampus => 3
    }

    function Label(): string
    {
      match this
      case Headquarters => "本部"
      case Beidaihe => "北戴河"
      case NewCampus => "新校区"
    }
  }

  /** The campus a code stands for: 本部 = 1, 北戴河 = 2, 新校区 = 3 and nothing else. */
  function CampusFromCode(c: int): (r: Option<Campus>)
    ensures r.Some? <==> 1 <= c <= 3
    ensures forall t: Campus :: r == Some(t) <==> t.Code() == c
  {
    match c
    case 1 => Some(Headquarters)
    case 2 => Some(Beidaihe)
    case 3 => Some(NewCampus)
    case _ => None
  }

  /** 教学楼: the building table. */
  datatype Building =
    | Engineering      // 工学馆
    | Foundation       // 基础楼
    | ComprehensiveLab // 综合实验楼
    | Geology          // 地质楼
    | Management       // 管理楼
    | UniversityHall   // 大学会馆
    | OldLab           // 旧实验楼
    | Humanities       // 人文楼
    | Technology       // 科技楼
  {
    function Code(): int
    {
      match this
      case Engineering => 1
      case Foundation => 2
      case ComprehensiveLab => 3
      case Geology => 4
      case Management => 5
      case UniversityHall => 6
      case OldLab => 7
      case Humanities => 8
      case Technology => 9
    }

    function Label(): string
    {
      match this
      case Engineering => "工学馆"
      case Foundation => "基础楼"
      case ComprehensiveLab => "综合实验楼"
      case Geology => "地质楼"
      case Management => "管理楼"
      case UniversityHall => "大学会馆"
      case OldLab => "旧实验楼"
      case Humanities => "人文楼"
      case Technology => "科技楼"
    }
  }

  /** The building a code stands for: the codes are exactly 1..9, one building each. */
  function BuildingFromCode(c: int): (r: Option<Building>)
    ensures r.Some? <==> 1 <= c <= 9
    ensures forall t: Building :: r == Some(t) <==> t.Code() == c
  {
    match c
    case 1 => Some(Engineering)
    case 2 => Some(Foundation)
    case 3 => Some(ComprehensiveLab)
    case 4 => Some(Geology)
    case 5 => Some(Management)
    case 6 => Some(UniversityHall)
    case 7 => Some(OldLab)
    case 8 => Some(Humanities)
    case 9 => Some(Technology)
    case _ => None
  }

  /** 时间周期类型: the cycle-time type table. */
  datatype CycleType =
    | Day  // 天
    | Week // 周
  {
    function Code(): int
    {
      match this
      case Day => 1
      case Week => 2
    }

    function Label(): string
    {
      match this
      case Day => "天"
      case Week => "周"
    }
  }

  /** The cycle type a code stands for: 天 = 1, 周 = 2. */
  function CycleTypeFromCode(c: int): (r: Option<CycleType>)
    ensures r.Some? <==> 1 <= c <= 2
    ensures forall t: CycleType :: r == Some(t) <==> t.Code() == c
  {
    match c
    case 1 => Some(Day)
    case 2 => Some(Week)
    case _ => None
  }

  /** 使用时间类型: whether a query names period slots or clock times. */
  datatype RoomApplyTimeType =
    | PeriodSlot // 小节
    | ClockTime  // 时间
  {
    function Code(): int
    {
      match this
      case PeriodSlot => 0
      case ClockTime => 1
    }

    function Label(): string
    {
      match this
      case PeriodSlot => "小节"
      case ClockTime => "时间"
    }
  }

  /** The room-apply-time type a code stands for: 小节 = 0, 时间 = 1. */
  function RoomApplyTimeTypeFromCode(c: int): (r: Option<RoomApplyTimeType>)
    ensures r.Some? <==> 0 <= c <= 1
    ensures forall t: RoomApplyTimeType :: r == Some(t) <==> t.Code() == c
  {
    match c
    case 0 => Some(PeriodSlot)
    case 1 => Some(ClockTime)
    case _ => None
  }

  /**
    The labels of each table are distinct, so each label is the key of exactly
    one code, as in the source's constant objects.
  */
  lemma LabelsIdentify()
    ensures forall a: ClassroomType, b: ClassroomType :: a.Label() == b.Label() ==> a == b
    ensures forall a: Campus, b: Campus :: a.Label() == b.Label() ==> a == b
    ensures forall a: Building, b: Building :: a.Label() == b.Label() ==> a == b
    ensures forall a: CycleType, b: CycleType :: a.Label() == b.Label() ==> a == b
    ensures forall a: RoomApplyTimeType, b: RoomApplyTimeType :: a.Label() == b.Label() ==> a == b
  {
  }

  /**
    `FreeClassroomRequestOption`: the type id, campus, building, seat count, page
    number and page size are optional; every other field is required.
  */
  datatype RequestOption = RequestOption(
    classroomType: Option<ClassroomType>,
    campus: Option<Campus>,
    building: Option<Building>,
    seats: Option<int>,
    classroomName: string,
    cycleCount: int,
    cycleType: CycleType,
    dateBegin: string,
    dateEnd: string,
    roomApplyTimeType: RoomApplyTimeType,
    timeBegin: int,
    timeEnd: int,
    pageNo: Option<int>,
    pageSize: Option<int>)
  {
    /** The bounds the type documents: a page number of at least 1 and a page size of at most 1000. */
    predicate WithinDocumentedBounds()
    {
      && (pageNo.Some? ==> pageNo.value >= 1)
      && (pageSize.Some? ==> pageSize.value <= 1000)
    }
  }

  /** A value of one of the record's properties, as `Object.entries` yields it. */
  datatype FieldValue = Text(text: string) | Number(number: int)
  {
    /** `value.toString()`. */
    function ToString(): string
    {
      match this
      case Text(s) => s
      case Number(n) => IntToString(n)
    }
  }

  /** One own property of a request object: its key and its value. */
  type Entry = (string, FieldValue)

  /** The key/value pairs of a form, in order. */
  type Form = seq<(string, string)>

  const TypeKey := "classroom.type.id"
  const CampusKey := "classroom.campus.id"
  const BuildingKey := "classroom.building.id"
  const SeatsKey := "seats"
  const NameKey := "classroom.name"
  const CycleCountKey := "cycleTime.cycleCount"
  const CycleTypeKey := "cycleTime.cycleType"
  const DateBeginKey := "cycleTime.dateBegin"
  const DateEndKey := "cycleTime.dateEnd"
  const RoomApplyTimeTypeKey := "roomApplyTimeType"
  const TimeBeginKey := "timeBegin"
  const TimeEndKey := "timeEnd"
  const PageNoKey := "pageNo"
  const PageSizeKey := "pageSize"

  /** The properties a request object may have, in declaration order; `None` marks an absent one. */
  function Fields(o: RequestOption): seq<(string, Option<FieldValue>)>
  {
    [ (TypeKey, if o.classroomType.Some? then Some(Number(o.classroomType.value.Code())) else None),
      (CampusKey, if o.campus.Some? then Some(Number(o.campus.value.Code())) else None),
      (BuildingKey, if o.building.Some? then Some(Number(o.building.value.Code())) else None),
      (SeatsKey, if o.seats.Some? then Some(Number(o.seats.value)) else None),
      (NameKey, Some(Text(o.classroomName))),
      (CycleCountKey, Some(Number(o.cycleCount))),
      (CycleTypeKey, Some(Number(o.cycleType.Code()))),
      (DateBeginKey, Some(Text(o.dateBegin))),
      (DateEndKey, Some(Text(o.dateEnd))),
      (RoomApplyTimeTypeKey, Some(Number(o.roomApplyTimeType.Code()))),
      (TimeBeginKey, Some(Number(o.timeBegin))),
      (TimeEndKey, Some(Number(o.timeEnd))),
      (PageNoKey, if o.pageNo.Some? then Some(Number(o.pageNo.value)) else None),
      (PageSizeKey, if o.pageSize.Some? then Some(Number(o.pageSize.value)) else None) ]
  }

  /** The properties that are present, in order. */
  function Present(fields: seq<(string, Option<FieldValue>)>): seq<Entry>
  {
    if fields == [] then []
    else if fields[0].1.Some? then [(fields[0].0, fields[0].1.value)] + Present(fields[1..])
    else Present(fields[1..])
  }

  /**
    The own entries of a request object whose properties were created in the
    order the type declares them; an absent optional property has no entry.
  */
  function Entries(o: RequestOption): seq<Entry>
  {
    Present(Fields(o))
  }

  /** Every value in its string form, as `params.append(key, value.toString())` stores it. */
  function Stringify(entries: seq<Entry>): (form: Form)
    ensures |form| == |entries|
    ensures forall i :: 0 <= i < |entries| ==> form[i].0 == entries[i].0
  {
    seq(|entries|, i requires 0 <= i < |entries| => (entries[i].0, entries[i].1.ToString()))
  }

  // ---------------------------------------------------------------------------
  // Reading a form back (what the portal does with the posted fields)
  // ---------------------------------------------------------------------------

  /** The value of the first pair with this key, as `URLSearchParams.get` returns it. */
  function Lookup(form: Form, key: string): Option<string>
  {
    if form == [] then None
    else if form[0].0 == key then Some(form[0].1)
    else Lookup(form[1..], key)
  }

  function RequiredText(form: Form, key: string): Option<string>
  {
    Lookup(form, key)
  }

  function RequiredInt(form: Form, key: string): Option<int>
  {
    match Lookup(form, key)
    case Some(s) => ParseInt(s)
    case None => None
  }

  /** An optional numeric field: absent is `Some(None)`, present and readable is `Some(Some(v))`. */
  function OptionalInt(form: Form, key: string): Option<Option<int>>
  {
    match Lookup(form, key)
    case None => Some(None)
    case Some(s) =>
      match ParseInt(s)
      case Some(v) => Some(Some(v))
      case None => None
  }

  /** An optional coded field, decoded through its table. */
  function OptionalCode<T>(form: Form, key: string, decode: int -> Option<T>): Option<Option<T>>
  {
    match OptionalInt(form, key)
    case None => None
    case Some(None) => Some(None)
    case Some(Some(c)) =>
      match decode(c)
      case Some(t) => Some(Some(t))
      case None => None
  }

  function RequiredCode<T>(form: Form, key: string, decode: int -> Option<T>): Option<T>
  {
    match RequiredInt(form, key)
    case Some(c) => decode(c)
    case None => None
  }

  /** Reads a request back from its form: the inverse of stringifying its entries. */
  function DecodeForm(form: Form): (r: Option<RequestOption>)
    ensures (|| Lookup(form, NameKey).None? || Lookup(form, DateBeginKey).None? || Lookup(form, DateEndKey).None?
             || Lookup(form, CycleCountKey).None? || Lookup(form, CycleTypeKey).None?
             || Lookup(form, RoomApplyTimeTypeKey).None? || Lookup(form, TimeBeginKey).None?
             || Lookup(form, TimeEndKey).None?) ==> r.None?
    ensures r.Some? ==> (Lookup(form, NameKey) == Some(r.value.classroomName)
      && Lookup(form, DateBeginKey) == Some(r.value.dateBegin)
      && Lookup(form, DateEndKey) == Some(r.value.dateEnd))
  {
    var classroomType :- OptionalCode(form, TypeKey, ClassroomTypeFromCode);
    var campus :- OptionalCode(form, CampusKey, CampusFromCode);
    var building :- OptionalCode(form, BuildingKey, BuildingFromCode);
    var seats :- OptionalInt(form, SeatsKey);
    var name :- RequiredText(form, NameKey);
    var cycleCount :- RequiredInt(form, CycleCountKey);
    var cycleType :- RequiredCode(form, CycleTypeKey, CycleTypeFromCode);
    var dateBegin :- RequiredText(form, DateBeginKey);
    var dateEnd :- RequiredText(form, DateEndKey);
    var applyType :- RequiredCode(form, RoomApplyTimeTypeKey, RoomApplyTimeTypeFromCode);
    var timeBegin :- RequiredInt(form, TimeBeginKey);
    var timeEnd :- RequiredInt(form, TimeEndKey);
    var pageNo :- OptionalInt(form, PageNoKey);
    var pageSize :- OptionalInt(form, PageSizeKey);
    Some(RequestOption(classroomType, campus, building, seats, name, cycleCount, cycleType,
                       dateBegin, dateEnd, applyType, timeBegin, timeEnd, pageNo, pageSize))
  }

  lemma {:induction false} LookupAppend(a: Form, b: Form, key: string)
    ensures Lookup(a + b, key) == if Lookup(a, key).Some? then Lookup(a, key) else Lookup(b, key)
  {
    if a != [] {
      assert (a + b)[0] == a[0];
      assert (a + b)[1..] == a[1..] + b;
      LookupAppend(a[1..], b, key);
    } else {
      assert a + b == b;
    }
  }

  lemma StringifyAppend(a: seq<Entry>, b: seq<Entry>)
    ensures Stringify(a + b) == Stringify(a) + Stringify(b)
  {
    assert forall i :: 0 <= i < |a + b| ==> Stringify(a + b)[i] == (Stringify(a) + Stringify(b))[i];
  }

  /** Lookup in the stringified form of `a + b`: `a` first, then `b`. */
  lemma LookupStringifyAppend(a: seq<Entry>, b: seq<Entry>, key: string)
    ensures Lookup(Stringify(a + b), key) ==
      if Lookup(Stringify(a), key).Some? then Lookup(Stringify(a), key) else Lookup(Stringify(b), key)
  {
    StringifyAppend(a, b);
    LookupAppend(Stringify(a), Stringify(b), key);
  }

  predicate DistinctKeys(fields: seq<(string, Option<FieldValue>)>)
  {
    forall i, j :: 0 <= i < j < |fields| ==> fields[i].0 != fields[j].0
  }

  lemma {:induction false} LookupAbsent(fields: seq<(string, Option<FieldValue>)>, key: string)
    requires forall i :: 0 <= i < |fields| ==> fields[i].0 != key
    ensures Lookup(Stringify(Present(fields)), key).None?
  {
    if fields != [] {
      LookupAbsent(fields[1..], key);
      if fields[0].1.Some? {
        LookupStringifyAppend([(fields[0].0, fields[0].1.value)], Present(fields[1..]), key);
      }
    }
  }

  /** With distinct keys, a present property is found under its key and an absent one is not. */
  lemma {:induction false} LookupPresent(fields: seq<(string, Option<FieldValue>)>, i: nat, key: string)
    requires DistinctKeys(fields) && i < |fields| && fields[i].0 == key
    ensures Lookup(Stringify(Present(fields)), key) ==
      if fields[i].1.Some? then Some(fields[i].1.value.ToString()) else None
  {
    var rest := fields[1..];
    if i == 0 {
      LookupAbsent(rest, key);
    } else {
      LookupPresent(rest, i - 1, key);
    }
    if fields[0].1.Some? {
      LookupStringifyAppend([(fields[0].0, fields[0].1.value)], Present(rest), key);
    }
  }

  /** The property names of a request object, in declaration order. */
  const Keys: seq<string> := [TypeKey, CampusKey, BuildingKey, SeatsKey, NameKey, CycleCountKey, CycleTypeKey,
    DateBeginKey, DateEndKey, RoomApplyTimeTypeKey, TimeBeginKey, TimeEndKey, PageNoKey, PageSizeKey]

  /** Length, second and last character: enough to tell the property names apart. */
  function KeySignature(key: string): (int, char, char)
    requires |key| >= 2
  {
    (|key|, key[1], key[|key| - 1])
  }

  const KeySignatures: seq<(int, char, char)> := [
    (17, 'l', 'd'), (19, 'l', 'd'), (21, 'l', 'd'), (5, 'e', 's'), (14, 'l', 'e'),
    (20, 'y', 't'), (19, 'y', 'e'), (19, 'y', 'n'), (17, 'y', 'd'), (17, 'o', 'e'),
    (9, 'i', 'n'), (7, 'i', 'd'), (6, 'a', 'o'), (8, 'a', 'e')]

  lemma SignaturesOfKeys()
    ensures |Keys| == |KeySignatures|
    ensures forall i :: 0 <= i < |Keys| ==> |Keys[i]| >= 2 && KeySignature(Keys[i]) == KeySignatures[i]
  {
  }

  lemma SignaturesDistinct()
    ensures forall i, j :: 0 <= i < j < |KeySignatures| ==> KeySignatures[i] != KeySignatures[j]
  {
  }

  lemma KeysDistinct()
    ensures forall i, j :: 0 <= i < j < |Keys| ==> Keys[i] != Keys[j]
  {
    SignaturesOfKeys();
    SignaturesDistinct();
  }

  lemma FieldsHaveDistinctKeys(o: RequestOption)
    ensures DistinctKeys(Fields(o))
  {
    assert forall i :: 0 <= i < |Keys| ==> Fields(o)[i].0 == Keys[i];
    KeysDistinct();
  }

  /** The form of a request under the keys of its first seven properties. */
  lemma LookupFirstFields(o: RequestOption)
    ensures var form := Stringify(Entries(o));
      && Lookup(form, TypeKey) == (if o.classroomType.Some? then Some(IntToString(o.classroomType.value.Code())) else None)
      && Lookup(form, CampusKey) == (if o.campus.Some? then Some(IntToString(o.campus.value.Code())) else None)
      && Lookup(form, BuildingKey) == (if o.building.Some? then Some(IntToString(o.building.value.Code())) else None)
      && Lookup(form, SeatsKey) == (if o.seats.Some? then Some(IntToString(o.seats.value)) else None)
      && Lookup(form, NameKey) == Some(o.classroomName)
      && Lookup(form, CycleCountKey) == Some(IntToString(o.cycleCount))
      && Lookup(form, CycleTypeKey) == Some(IntToString(o.cycleType.Code()))
  {
    var form := Stringify(Entries(o));
    var fields := Fields(o);
    FieldsHaveDistinctKeys(o);
    assert Lookup(form, TypeKey) == (if o.classroomType.Some? then Some(IntToString(o.classroomType.value.Code())) else None) by { LookupPresent(fields, 0, TypeKey); }
    assert Lookup(form, CampusKey) == (if o.campus.Some? then Some(IntToString(o.campus.value.Code())) else None) by { LookupPresent(fields, 1, CampusKey); }
    assert Lookup(form, BuildingKey) == (if o.building.Some? then Some(IntToString(o.building.value.Code())) else None) by { LookupPresent(fields, 2, BuildingKey); }
    assert Lookup(form, SeatsKey) == (if o.seats.Some? then Some(IntToString(o.seats.value)) else None) by { LookupPresent(fields, 3, SeatsKey); }
    assert Lookup(form, NameKey) == Some(o.classroomName) by { LookupPresent(fields, 4, NameKey); }
    assert Lookup(form, CycleCountKey) == Some(IntToString(o.cycleCount)) by { LookupPresent(fields, 5, CycleCountKey); }
    assert Lookup(form, CycleTypeKey) == Some(IntToString(o.cycleType.Code())) by { LookupPresent(fields, 6, CycleTypeKey); }
  }

  /** The form of a request under the keys of its last seven properties. */
  lemma LookupLastFields(o: RequestOption)
    ensures var form := Stringify(Entries(o));
      && Lookup(form, DateBeginKey) == Some(o.dateBegin)
      && Lookup(form, DateEndKey) == Some(o.dateEnd)
      && Lookup(form, RoomApplyTimeTypeKey) == Some(IntToString(o.roomApplyTimeType.Code()))
      && Lookup(form, TimeBeginKey) == Some(IntToString(o.timeBegin))
      && Lookup(form, TimeEndKey) == Some(IntToString(o.timeEnd))
      && Lookup(form, PageNoKey) == (if o.pageNo.Some? then Some(IntToString(o.pageNo.value)) else None)
      && Lookup(form, PageSizeKey) == (if o.pageSize.Some? then Some(IntToString(o.pageSize.value)) else None)
  {
    var form := Stringify(Entries(o));
    var fields := Fields(o);
    FieldsHaveDistinctKeys(o);
    assert Lookup(form, DateBeginKey) == Some(o.dateBegin) by { LookupPresent(fields, 7, DateBeginKey); }
    assert Lookup(form, DateEndKey) == Some(o.dateEnd) by { LookupPresent(fields, 8, DateEndKey); }
    assert Lookup(form, RoomApplyTimeTypeKey) == Some(IntToString(o.roomApplyTimeType.Code())) by { LookupPresent(fields, 9, RoomApplyTimeTypeKey); }
    assert Lookup(form, TimeBeginKey) == Some(IntToString(o.timeBegin)) by { LookupPresent(fields, 10, TimeBeginKey); }
    assert Lookup(form, TimeEndKey) == Some(IntToString(o.timeEnd)) by { LookupPresent(fields, 11, TimeEndKey); }
    assert Lookup(form, PageNoKey) == (if o.pageNo.Some? then Some(IntToString(o.pageNo.value)) else None) by { LookupPresent(fields, 12, PageNoKey); }
    assert Lookup(form, PageSizeKey) == (if o.pageSize.Some? then Some(IntToString(o.pageSize.value)) else None) by { LookupPresent(fields, 13, PageSizeKey); }
  }

  /** What the form of a request holds under each of its keys. */
  lemma LookupEachField(o: RequestOption)
    ensures var form := Stringify(Entries(o));
      && Lookup(form, TypeKey) == (if o.classroomType.Some? then Some(IntToString(o.classroomType.value.Code())) else None)
      && Lookup(form, CampusKey) == (if o.campus.Some? then Some(IntToString(o.campus.value.Code())) else None)
      && Lookup(form, BuildingKey) == (if o.building.Some? then Some(IntToString(o.building.value.Code())) else None)
      && Lookup(form, SeatsKey) == (if o.seats.Some? then Some(IntToString(o.seats.value)) else None)
      && Lookup(form, NameKey) == Some(o.classroomName)
      && Lookup(form, CycleCountKey) == Some(IntToString(o.cycleCount))
      && Lookup(form, CycleTypeKey) == Some(IntToString(o.cycleType.Code()))
      && Lookup(form, DateBeginKey) == Some(o.dateBegin)
      && Lookup(form, DateEndKey) == Some(o.dateEnd)
      && Lookup(form, RoomApplyTimeTypeKey) == Some(IntToString(o.roomApplyTimeType.Code()))
      && Lookup(form, TimeBeginKey) == Some(IntToString(o.timeBegin))
      && Lookup(form, TimeEndKey) == Some(IntToString(o.timeEnd))
      && Lookup(form, PageNoKey) == (if o.pageNo.Some? then Some(IntToString(o.pageNo.value)) else None)
      && Lookup(form, PageSizeKey) == (if o.pageSize.Some? then Some(IntToString(o.pageSize.value)) else None)
  {
    LookupFirstFields(o);
    LookupLastFields(o);
  }

  /** Each optional property is read back from the form as it was. */
  lemma DecodeOptionalFields(o: RequestOption)
    ensures var form := Stringify(Entries(o));
      && OptionalCode(form, TypeKey, ClassroomTypeFromCode) == Some(o.classroomType)
      && OptionalCode(form, CampusKey, CampusFromCode) == Some(o.campus)
      && OptionalCode(form, BuildingKey, BuildingFromCode) == Some(o.building)
      && OptionalInt(form, SeatsKey) == Some(o.seats)
      && OptionalInt(form, PageNoKey) == Some(o.pageNo)
      && OptionalInt(form, PageSizeKey) == Some(o.pageSize)
  {
    LookupFirstFields(o);
    LookupLastFields(o);
    if o.classroomType.Some? { ParseIntOfIntToString(o.classroomType.value.Code()); }
    if o.campus.Some? { ParseIntOfIntToString(o.campus.value.Code()); }
    if o.building.Some? { ParseIntOfIntToString(o.building.value.Code()); }
    if o.seats.Some? { ParseIntOfIntToString(o.seats.value); }
    if o.pageNo.Some? { ParseIntOfIntToString(o.pageNo.value); }
    if o.pageSize.Some? { ParseIntOfIntToString(o.pageSize.value); }
  }

  /** Each required property is read back from the form as it was. */
  lemma DecodeRequiredFields(o: RequestOption)
    ensures var form := Stringify(Entries(o));
      && RequiredText(form, NameKey) == Some(o.classroomName)
      && RequiredInt(form, CycleCountKey) == Some(o.cycleCount)
      && RequiredCode(form, CycleTypeKey, CycleTypeFromCode) == Some(o.cycleType)
      && RequiredText(form, DateBeginKey) == Some(o.dateBegin)
      && RequiredText(form, DateEndKey) == Some(o.dateEnd)
      && RequiredCode(form, RoomApplyTimeTypeKey, RoomApplyTimeTypeFromCode) == Some(o.roomApplyTimeType)
      && RequiredInt(form, TimeBeginKey) == Some(o.timeBegin)
      && RequiredInt(form, TimeEndKey) == Some(o.timeEnd)
  {
    LookupFirstFields(o);
    LookupLastFields(o);
    ParseIntOfIntToString(o.cycleCount);
    ParseIntOfIntToString(o.cycleType.Code());
    ParseIntOfIntToString(o.roomApplyTimeType.Code());
    ParseIntOfIntToString(o.timeBegin);
    ParseIntOfIntToString(o.timeEnd);
  }

  /** Reading back the stringified entries of a request gives the request again. */
  lemma DecodeStringifiedEntries(o: RequestOption)
    ensures DecodeForm(Stringify(Entries(o))) == Some(o)
  {
    DecodeOptionalFields(o);
    DecodeRequiredFields(o);
  }
}
