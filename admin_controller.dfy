/**
 * The administrative endpoints: login, listing, creating, editing and removing
 * gifts, and overriding a gift's status or the name it is reserved under.
 *
 * `fault` parameters stand for a database statement that fails: the first one
 * the endpoint runs (the lookup, or the insert of `createGift`), so the table is
 * left as it was.
 */
module AdminController {
  import opened Wrappers
  import opened Js
  import opened GiftModel
  import opened AdminModel
  import opened Http
  import GiftController

  // ----------------------------------------------------------------- login

  const PasswordRequiredMessage := "Senha é obrigatória"
  const LoginMessage := "Login realizado com sucesso"
  const LoginFailedMessage := "Erro ao realizar login"

  /**
   * `login`: a missing password is refused before the table is read; the two
   * ways `verifyPassword` rejects are 401 with their own messages; anything
   * else that goes wrong is 500. Success identifies the first admin row (the
   * token signed for that id is not modelled).
   */
  function Login(admins: AdminTable, password: Json, compare: Compare): (r: Response)
    reads admins
    ensures !Truthy(password) ==> r == Fail(400, PasswordRequiredMessage)
    ensures r.status == 200 <==> Truthy(password) && admins.VerifyPassword(password, compare).Ok?
    ensures r.status == 200 ==> r == Succeed(200, LoginMessage, Token(admins.rows[0].id))
    ensures Truthy(password) && admins.rows == [] ==> r == Fail(401, NotConfiguredMessage)
    ensures Truthy(password) && admins.rows != [] && compare(password, admins.rows[0].passwordHash) == Ok(false) ==>
      r == Fail(401, WrongPasswordMessage)
    ensures r.status == 401 <==>
      Truthy(password) && admins.VerifyPassword(password, compare).Err?
      && admins.VerifyPassword(password, compare).error.message in {WrongPasswordMessage, NotConfiguredMessage}
    ensures r.status in {200, 400, 401, 500}
  {
    if !Truthy(password) then Fail(400, PasswordRequiredMessage)
    else
      match admins.VerifyPassword(password, compare)
      case Ok(admin) => Succeed(200, LoginMessage, Token(admin.id))
      case Err(e) =>
        if e.message == WrongPasswordMessage || e.message == NotConfiguredMessage then Fail(401, e.message)
        else Fail(500, LoginFailedMessage)
  }

  // -------------------------------------------------------------- getGifts

  /** `getGifts`: the listing of `findAll` as it is, or a plain 500. */
  function GetGifts(gifts: GiftTable, faults: ListFaults): (r: Response)
    reads gifts
    requires gifts.Valid()
    ensures r.status == 200 <==> gifts.FindAll(faults).Ok?
    ensures r.status == 200 ==> r == Response(200, true, None, GiftList(gifts.FindAll(faults).value))
    ensures r.status != 200 ==> r == Fail(500, GiftController.ListFailedMessage)
    ensures faults.full.None? ==>
      r.status == 200 && ListsTable(r.payload.gifts, gifts.rows) && NewestFirst(r.payload.gifts)
  {
    match gifts.FindAll(faults)
    case Ok(list) => Response(200, true, None, GiftList(list))
    case Err(_) => Fail(500, GiftController.ListFailedMessage)
  }

  // ------------------------------------------------------ request handling

  /**
   * A create or edit request: the five gift fields of the body, the name under
   * which an uploaded image was stored, and the upload filter's rejection.
   */
  datatype GiftRequest = GiftRequest(fields: GiftFields, file: Option<string>, fileValidationError: Option<string>)

  /** What the preparation of a create or edit decides: answer now, fail with an exception, or write these values. */
  datatype Prepared = Answer(response: Response) | Raise(error: Error) | Write(data: GiftData)

  const FileTypeMarker := "Tipo de arquivo"

  /** The path under which an uploaded image is served. */
  function UploadPath(filename: string): (p: string)
    ensures StartsWith(p, "/uploads/images/") && p[|"/uploads/images/"|..] == filename
  {
    "/uploads/images/" + filename
  }

  /** The upload filter rejected the file (`req.fileValidationError` is truthy). */
  predicate FileRejected(req: GiftRequest)
  {
    req.fileValidationError.Some? && req.fileValidationError.value != ""
  }

  /** The `catch` of `createGift` and `updateGift`: upload-type errors are 400 with their message, anything else 500. */
  function CatchResponse(e: Error, generic: string): (r: Response)
    ensures r.status == 400 <==> Includes(e.message, FileTypeMarker)
    ensures r.status == 400 ==> r == Fail(400, e.message)
    ensures r.status != 400 ==> r == Fail(500, generic)
  {
    if Includes(e.message, FileTypeMarker) then Fail(400, e.message) else Fail(500, generic)
  }

  /** `errors.join(', ')` as a 400. */
  function ValidationFailure(errors: seq<string>): Response
  {
    Fail(400, Join(errors, ", "))
  }

  // ------------------------------------------------------------ createGift

  const CreatedMessage := "Presente criado com sucesso"
  const CreateFailedMessage := "Erro ao criar presente"

  /** A required text field of a new gift: the trimmed string, or "" for anything else. */
  function CleanText(v: Json): (r: string)
    ensures v.Str? ==> r == Trim(v.s)
    ensures !v.Str? ==> r == ""
    ensures Trim(r) == r
  {
    if Truthy(v) && v.Str? then TrimIdempotent(v.s); Trim(v.s) else ""
  }

  /** The image of a new gift: the uploaded file, else a non-blank `image_url` string trimmed, else none. */
  function NewImage(v: Json, file: Option<string>): (r: Option<string>)
    ensures file.Some? ==> r == Some(UploadPath(file.value))
    ensures file.None? ==> (r.Some? <==> v.Str? && Trim(v.s) != "")
    ensures file.None? && r.Some? ==> r.value == Trim(v.s)
  {
    if file.Some? then Some(UploadPath(file.value))
    else if Truthy(v) && v.Str? && Trim(v.s) != "" then Some(Trim(v.s))
    else None
  }

  /** What `validate` is given on create: the cleaned texts, and no image URL when a file was uploaded. */
  function CreateValidationFields(f: GiftFields, file: Option<string>): GiftFields
  {
    GiftFields(Str(CleanText(f.name)), Str(CleanText(f.category)), Str(CleanText(f.description)),
               f.productLink, if file.Some? then Null else f.imageUrl)
  }

  /** The outcome of the checks of `createGift` once the upload filter let the request through. */
  function CreatePlan(f: GiftFields, file: Option<string>, isUrl: string -> bool): Prepared
  {
    var v := CreateValidationFields(f, file);
    match Validate(v, isUrl)
    case Err(e) => Raise(e)
    case Ok(errors) =>
      if errors != [] then Answer(ValidationFailure(errors))
      else
        Write(CreateData(f, file))
  }

  /** The row `createGift` writes: the cleaned texts cut to their columns, the trimmed link and the chosen image. */
  function CreateData(f: GiftFields, file: Option<string>): GiftData
  {
    GiftData(
      Prefix(CleanText(f.name), 200),
      Prefix(CleanText(f.category), 50),
      Prefix(CleanText(f.description), 500),
      if Truthy(f.productLink) && f.productLink.Str? then Some(Trim(f.productLink.s)) else None,
      NewImage(f.imageUrl, file))
  }

  /** Once the cleaned texts pass validation, the row holds texts within the column limits, each the start of the trimmed input. */
  lemma CreateDataProperties(f: GiftFields, file: Option<string>, isUrl: string -> bool)
    requires FieldsValid(CreateValidationFields(f, file), isUrl)
    ensures var d := CreateData(f, file);
      && f.name.Str? && f.category.Str? && f.description.Str?
      && 2 <= |d.name| <= 200 && d.name == Prefix(Trim(f.name.s), 200)
      && 1 <= |d.category| <= 50 && d.category == Prefix(Trim(f.category.s), 50)
      && 5 <= |d.description| <= 500 && d.description == Prefix(Trim(f.description.s), 500)
  {
    var v := CreateValidationFields(f, file);
    assert |CleanText(f.name)| >= 2 && |CleanText(f.category)| >= 1 && |CleanText(f.description)| >= 5;
  }

  /**
   * What `createGift` decides: validation throws only for a truthy non-string
   * link or (without a file) image URL; a gift that is written has texts within
   * the column limits, each the start of the trimmed input.
   */
  lemma CreatePlanProperties(f: GiftFields, file: Option<string>, isUrl: string -> bool, p: Prepared)
    requires p == CreatePlan(f, file, isUrl)
    ensures p.Raise? <==> TrimThrows(f.productLink) || (file.None? && TrimThrows(f.imageUrl))
    ensures p.Raise? ==> p.error == TrimTypeError
    ensures p.Answer? <==> !p.Raise? && !FieldsValid(CreateValidationFields(f, file), isUrl)
    ensures p.Answer? ==> p.response.status == 400 && !p.response.success
    ensures p.Write? ==>
      && f.name.Str? && f.category.Str? && f.description.Str?
      && 2 <= |p.data.name| <= 200 && p.data.name == Prefix(Trim(f.name.s), 200)
      && 1 <= |p.data.category| <= 50 && p.data.category == Prefix(Trim(f.category.s), 50)
      && 5 <= |p.data.description| <= 500 && p.data.description == Prefix(Trim(f.description.s), 500)
      && p.data.productLink == (if Truthy(f.productLink) && f.productLink.Str? then Some(Trim(f.productLink.s)) else None)
      && p.data.imageUrl == NewImage(f.imageUrl, file)
  {
    if p.Write? {
      CreateDataProperties(f, file, isUrl);
    }
  }

  /** The body of `createGift` up to the insert, overwriting the fields one by one. */
  method PrepareCreate(f: GiftFields, file: Option<string>, isUrl: string -> bool) returns (p: Prepared)
    ensures p == CreatePlan(f, file, isUrl)
  {
    var name := CleanTextField(f.name);
    var category := CleanTextField(f.category);
    var description := CleanTextField(f.description);
    var imageUrl := ChooseNewImage(f.imageUrl, file);

    var validation := GiftFields(Str(name), Str(category), Str(description), f.productLink, f.imageUrl);
    if file.Some? {
      validation := validation.(imageUrl := Null);
    }
    var errors := Validate(validation, isUrl);
    if errors.Err? {
      return Raise(errors.error);
    }
    if |errors.value| > 0 {
      return Answer(ValidationFailure(errors.value));
    }

    var link := if Truthy(f.productLink) && f.productLink.Str? then Some(Trim(f.productLink.s)) else None;
    p := Write(GiftData(Prefix(name, 200), Prefix(category, 50), Prefix(description, 500), link, imageUrl));
  }

  /** `(v && typeof v === 'string') ? v.trim() : ''` */
  method CleanTextField(v: Json) returns (r: string)
    ensures r == CleanText(v)
  {
    r := "";
    if Truthy(v) && v.Str? {
      r := Trim(v.s);
    }
  }

  /** The image of a new gift, chosen step by step. */
  method ChooseNewImage(v: Json, file: Option<string>) returns (imageUrl: Option<string>)
    ensures imageUrl == NewImage(v, file)
  {
    imageUrl := None;
    if file.Some? {
      imageUrl := Some(UploadPath(file.value));
    } else if Truthy(v) && v.Str? && Trim(v.s) != "" {
      imageUrl := Some(Trim(v.s));
    }
  }

  /** `createGift`: a refused or invalid request writes nothing; a valid one inserts exactly the prepared row. */
  method CreateGift(gifts: GiftTable, req: GiftRequest, isUrl: string -> bool, now: Timestamp, fault: Option<Error>)
    returns (resp: Response)
    requires gifts.Valid()
    modifies gifts
    ensures gifts.Valid()
    ensures FileRejected(req) ==> resp == Fail(400, req.fileValidationError.value)
    ensures !FileRejected(req) && CreatePlan(req.fields, req.file, isUrl).Answer? ==>
      resp == CreatePlan(req.fields, req.file, isUrl).response
    ensures !FileRejected(req) && CreatePlan(req.fields, req.file, isUrl).Raise? ==>
      resp == CatchResponse(CreatePlan(req.fields, req.file, isUrl).error, CreateFailedMessage)
    ensures !FileRejected(req) && CreatePlan(req.fields, req.file, isUrl).Write? && fault.Some? ==>
      resp == CatchResponse(fault.value, CreateFailedMessage)
    ensures (resp.status != 201) == (gifts.rows == old(gifts.rows) && gifts.nextId == old(gifts.nextId))
    ensures resp.status == 201 ==>
      && !FileRejected(req) && CreatePlan(req.fields, req.file, isUrl).Write? && fault.None?
      && gifts.rows == InsertRow(old(gifts.rows), old(gifts.nextId), CreatePlan(req.fields, req.file, isUrl).data, now)
      && resp == Succeed(201, CreatedMessage, OneGift(Some(gifts.rows[old(gifts.nextId)])))
  {
    if FileRejected(req) {
      return Fail(400, req.fileValidationError.value);
    }
    var p := PrepareCreate(req.fields, req.file, isUrl);
    CreatePlanProperties(req.fields, req.file, isUrl, p);
    resp := WritePlan(gifts, p, now, fault);
  }

  /** The rest of `createGift` once the plan is known: only a prepared write with no fault inserts a row. */
  method WritePlan(gifts: GiftTable, p: Prepared, now: Timestamp, fault: Option<Error>) returns (resp: Response)
    requires gifts.Valid()
    requires p.Answer? ==> p.response.status == 400
    modifies gifts
    ensures gifts.Valid()
    ensures p.Answer? ==> resp == p.response
    ensures p.Raise? ==> resp == CatchResponse(p.error, CreateFailedMessage)
    ensures p.Write? && fault.Some? ==> resp == CatchResponse(fault.value, CreateFailedMessage)
    ensures (resp.status != 201) == (gifts.rows == old(gifts.rows) && gifts.nextId == old(gifts.nextId))
    ensures resp.status == 201 ==>
      && p.Write? && fault.None?
      && gifts.rows == InsertRow(old(gifts.rows), old(gifts.nextId), p.data, now)
      && resp == Succeed(201, CreatedMessage, OneGift(Some(gifts.rows[old(gifts.nextId)])))
  {
    match p
    case Answer(r) => resp := r;
    case Raise(e) => resp := CatchResponse(e, CreateFailedMessage);
    case Write(data) =>
      if fault.Some? {
        resp := CatchResponse(fault.value, CreateFailedMessage);
      } else {
        var g := gifts.Create(data, now);
        assert old(gifts.nextId) !in old(gifts.rows);
        resp := Succeed(201, CreatedMessage, OneGift(Some(g)));
      }
  }

  // ------------------------------------------------------------ updateGift

  const UpdatedMessage := "Presente atualizado com sucesso"
  const UpdateFailedMessage := "Erro ao atualizar presente"

  /**
   * A required text field on edit: absent, null or blank keeps the stored value;
   * otherwise the trimmed text, or `String(v)` for a value that is not a string
   * (an empty one, such as that of `[]`, also keeps the stored value).
   */
  function KeptText(v: Json, stored: string): (r: string)
    ensures IsNullish(v) ==> r == stored
    ensures v.Str? ==> r == (if Trim(v.s) == "" then stored else Trim(v.s))
    ensures !IsNullish(v) && !v.Str? ==> r == (if ToJsString(v) == "" then stored else ToJsString(v))
  {
    if IsNullish(v) then stored
    else
      var t := if v.Str? then Trim(v.s) else ToJsString(v);
      if t == "" then stored else t
  }

  /** `product_link` on edit: absent or null keeps the stored link, a blank string clears it, a string is trimmed. */
  function KeptLink(v: Json, stored: Option<string>): (r: Json)
    ensures IsNullish(v) ==> r == (match OrNull(stored) case None => Null case Some(s) => Str(s))
    ensures v.Str? ==> r == (if Trim(v.s) == "" then Null else Str(Trim(v.s)))
    ensures !IsNullish(v) && !v.Str? ==> r == v
  {
    if IsNullish(v) then (match OrNull(stored) case None => Null case Some(s) => Str(s))
    else if v.Str? && Trim(v.s) == "" then Null
    else if v.Str? then Str(Trim(v.s))
    else v
  }

  /**
   * The image on edit: an uploaded file wins, then a non-blank `image_url`
   * string, then the stored image. A truthy `image_url` that is not a string
   * throws when trimmed.
   */
  function KeptImage(v: Json, file: Option<string>, stored: Option<string>): (r: Result<Option<string>, Error>)
    ensures r.Err? <==> file.None? && TrimThrows(v)
    ensures r.Err? ==> r.error == TrimTypeError
    ensures file.Some? ==> r == Ok(Some(UploadPath(file.value)))
    ensures file.None? && v.Str? && Trim(v.s) != "" ==> r == Ok(Some(Trim(v.s)))
    ensures file.None? && !TrimThrows(v) && !(v.Str? && Trim(v.s) != "") ==> r == Ok(OrNull(stored))
  {
    if file.Some? then Ok(Some(UploadPath(file.value)))
    else if Truthy(v) && !v.Str? then Err(TrimTypeError)
    else if Truthy(v) && Trim(v.s) != "" then Ok(Some(Trim(v.s)))
    else Ok(OrNull(stored))
  }

  /** What `validate` is given on edit: the merged texts and link, and no image URL when a file was uploaded. */
  function UpdateValidationFields(existing: Gift, f: GiftFields, file: Option<string>): GiftFields
  {
    GiftFields(Str(KeptText(f.name, existing.name)), Str(KeptText(f.category, existing.category)),
               Str(KeptText(f.description, existing.description)), KeptLink(f.productLink, existing.productLink),
               if file.Some? then Null else f.imageUrl)
  }

  /**
   * The outcome of the field merge of `updateGift` for an existing gift: each
   * text is the merged value trimmed and cut to its column, the link is the
   * merged link, the image the chosen one.
   */
  function UpdatePlan(existing: Gift, f: GiftFields, file: Option<string>, isUrl: string -> bool): Prepared
  {
    match KeptImage(f.imageUrl, file, existing.imageUrl)
    case Err(e) => Raise(e)
    case Ok(image) =>
      var v := UpdateValidationFields(existing, f, file);
      match Validate(v, isUrl)
      case Err(e) => Raise(e)
      case Ok(errors) =>
        if errors != [] then Answer(ValidationFailure(errors))
        else
          Write(UpdateData(KeptText(f.name, existing.name), KeptText(f.category, existing.category),
                           KeptText(f.description, existing.description),
                           KeptLink(f.productLink, existing.productLink), image))
  }

  /** The row `updateGift` writes from the merged values: texts trimmed and cut to their columns, a non-empty link trimmed. */
  function UpdateData(name: string, category: string, description: string, link: Json, image: Option<string>): GiftData
  {
    GiftData(Prefix(Trim(name), 200), Prefix(Trim(category), 50), Prefix(Trim(description), 500),
             if link.Str? && link.s != "" then Some(Trim(link.s)) else None, image)
  }

  /** Merged texts that pass validation are written within their column limits. */
  lemma UpdateDataBounds(name: string, category: string, description: string, link: Json, image: Option<string>)
    requires |Trim(name)| >= 2 && |Trim(category)| >= 1 && |Trim(description)| >= 5
    ensures var d := UpdateData(name, category, description, link, image);
      2 <= |d.name| <= 200 && 1 <= |d.category| <= 50 && 5 <= |d.description| <= 500
  {
  }

  /**
   * What `updateGift` decides for an existing gift: each text is the merged
   * value trimmed and cut to its column, the link the merged link, the image
   * the chosen one; it throws only for a truthy non-string image URL (without a
   * file) or link.
   */
  lemma UpdatePlanProperties(existing: Gift, f: GiftFields, file: Option<string>, isUrl: string -> bool, p: Prepared)
    requires p == UpdatePlan(existing, f, file, isUrl)
    ensures p.Raise? <==>
      (file.None? && TrimThrows(f.imageUrl)) || TrimThrows(KeptLink(f.productLink, existing.productLink))
    ensures p.Raise? ==> p.error == TrimTypeError
    ensures p.Answer? <==> !p.Raise? && !FieldsValid(UpdateValidationFields(existing, f, file), isUrl)
    ensures p.Answer? ==> p.response.status == 400 && !p.response.success
    ensures p.Write? ==>
      && p.data.name == Prefix(Trim(KeptText(f.name, existing.name)), 200)
      && p.data.category == Prefix(Trim(KeptText(f.category, existing.category)), 50)
      && p.data.description == Prefix(Trim(KeptText(f.description, existing.description)), 500)
      && 2 <= |p.data.name| <= 200 && 1 <= |p.data.category| <= 50 && 5 <= |p.data.description| <= 500
      && (var link := KeptLink(f.productLink, existing.productLink);
          p.data.productLink == (if link.Str? && link.s != "" then Some(Trim(link.s)) else None))
      && Ok(p.data.imageUrl) == KeptImage(f.imageUrl, file, existing.imageUrl)
  {
    if p.Write? {
      var v := UpdateValidationFields(existing, f, file);
      assert TextOk(v.name, 2) && TextOk(v.category, 1) && TextOk(v.description, 5);
      UpdateDataBounds(v.name.s, v.category.s, v.description.s, v.productLink, p.data.imageUrl);
    }
  }

  /** The body of `updateGift` after the lookup, merging the fields one by one. */
  method PrepareUpdate(existing: Gift, f: GiftFields, file: Option<string>, isUrl: string -> bool) returns (p: Prepared)
    ensures p == UpdatePlan(existing, f, file, isUrl)
  {
    var name := MergeTextField(f.name, existing.name);
    var category := MergeTextField(f.category, existing.category);
    var description := MergeTextField(f.description, existing.description);
    var link := MergeLinkField(f.productLink, existing.productLink);
    var image := ChooseKeptImage(f.imageUrl, file, existing.imageUrl);
    if image.Err? {
      return Raise(image.error);
    }

    var validation := GiftFields(Str(name), Str(category), Str(description), link, f.imageUrl);
    if file.Some? {
      validation := validation.(imageUrl := Null);
    }
    var errors := Validate(validation, isUrl);
    if errors.Err? {
      return Raise(errors.error);
    }
    if |errors.value| > 0 {
      return Answer(ValidationFailure(errors.value));
    }

    var storedLink := if link.Str? && link.s != "" then Some(Trim(link.s)) else None;
    p := Write(GiftData(Prefix(Trim(name), 200), Prefix(Trim(category), 50), Prefix(Trim(description), 500),
                        storedLink, image.value));
  }

  /** One required text field on edit: absent or null keeps the stored value, and so does a blank one. */
  method MergeTextField(v: Json, stored: string) returns (r: string)
    ensures r == KeptText(v, stored)
  {
    if IsNullish(v) {
      r := stored;
    } else {
      var trimmed := if v.Str? then Trim(v.s) else ToJsString(v);
      r := if trimmed != "" then trimmed else stored;
    }
  }

  /** `product_link` on edit, reassigned case by case. */
  method MergeLinkField(v: Json, stored: Option<string>) returns (link: Json)
    ensures link == KeptLink(v, stored)
  {
    link := v;
    if IsNullish(link) {
      link := match OrNull(stored) case None => Null case Some(s) => Str(s);
    } else if link.Str? && Trim(link.s) == "" {
      link := Null;
    } else if link.Str? {
      link := Str(Trim(link.s));
    }
  }

  /** The image on edit, chosen step by step; trimming a truthy non-string throws. */
  method ChooseKeptImage(v: Json, file: Option<string>, stored: Option<string>) returns (r: Result<Option<string>, Error>)
    ensures r == KeptImage(v, file, stored)
  {
    var imageUrl: Option<string> := None;
    if file.Some? {
      imageUrl := Some(UploadPath(file.value));
    } else if Truthy(v) {
      if !v.Str? {
        return Err(TrimTypeError);
      }
      if Trim(v.s) != "" {
        imageUrl := Some(Trim(v.s));
      } else if OrNull(stored).Some? {
        imageUrl := stored;
      }
    } else if OrNull(stored).Some? {
      imageUrl := stored;
    }
    r := Ok(imageUrl);
  }

  /**
   * `updateGift`: the upload filter's rejection comes first, then the lookup
   * (404 for an unknown id), then the merge. Only a prepared write changes the
   * table, and only the row of that id.
   */
  method UpdateGift(gifts: GiftTable, id: string, req: GiftRequest, isUrl: string -> bool, fault: Option<Error>)
    returns (resp: Response)
    requires gifts.Valid()
    modifies gifts
    ensures gifts.Valid() && gifts.nextId == old(gifts.nextId)
    ensures FileRejected(req) ==> resp == Fail(400, req.fileValidationError.value)
    ensures !FileRejected(req) && fault.Some? ==> resp == CatchResponse(fault.value, UpdateFailedMessage)
    ensures !FileRejected(req) && fault.None? && RowKey(Str(id)) !in old(gifts.rows) ==> resp == Fail(404, NotFoundMessage)
    ensures resp.status != 200 ==> gifts.rows == old(gifts.rows)
    ensures resp.status == 200 <==>
      && !FileRejected(req) && fault.None? && RowKey(Str(id)) in old(gifts.rows)
      && UpdatePlan(old(gifts.rows)[RowKey(Str(id))], req.fields, req.file, isUrl).Write?
    ensures resp.status == 200 ==>
      var key := RowKey(Str(id));
      && gifts.rows == UpdateRow(old(gifts.rows), key, UpdatePlan(old(gifts.rows)[key], req.fields, req.file, isUrl).data)
      && resp == Succeed(200, UpdatedMessage, OneGift(Some(gifts.rows[key])))
  {
    if FileRejected(req) {
      return Fail(400, req.fileValidationError.value);
    }
    if fault.Some? {
      return CatchResponse(fault.value, UpdateFailedMessage);
    }
    var key := RowKey(Str(id));
    var existing := gifts.FindById(key);
    if existing.None? {
      return Fail(404, NotFoundMessage);
    }
    var p := PrepareUpdate(existing.value, req.fields, req.file, isUrl);
    match p
    case Answer(r) =>
      resp := r;
    case Raise(e) =>
      resp := CatchResponse(e, UpdateFailedMessage);
    case Write(data) =>
      var g := gifts.Update(key, data);
      resp := Succeed(200, UpdatedMessage, OneGift(g));
  }

  /** A stored gift whose texts are already trimmed and within their columns, and whose link is valid or absent. */
  predicate Normalised(g: Gift, isUrl: string -> bool)
  {
    && Trim(g.name) == g.name && 2 <= |g.name| <= 200
    && Trim(g.category) == g.category && 1 <= |g.category| <= 50
    && Trim(g.description) == g.description && 5 <= |g.description| <= 500
    && (g.productLink.Some? ==> g.productLink.value != "" && Trim(g.productLink.value) == g.productLink.value
                                && isUrl(g.productLink.value))
    && g.imageUrl != Some("")
  }

  /** The edit request that sends no field and no file. */
  const EmptyEdit := GiftFields(Undefined, Undefined, Undefined, Undefined, Undefined)

  /** Saving the edit form with nothing filled in writes back the gift's own values, so the table does not change. */
  lemma EmptyEditKeepsGift(t: Table, id: int, isUrl: string -> bool)
    requires id in t && Normalised(t[id], isUrl)
    ensures var p := UpdatePlan(t[id], EmptyEdit, None, isUrl);
      p.Write? && UpdateRow(t, id, p.data) == t
  {
    var g := t[id];
    var link := KeptLink(Undefined, g.productLink);
    assert link == if g.productLink.Some? then Str(g.productLink.value) else Null;
    var v := UpdateValidationFields(g, EmptyEdit, None);
    assert v == GiftFields(Str(g.name), Str(g.category), Str(g.description), link, Undefined);
    EmptyEditIsValid(g, isUrl, link);
    assert KeptImage(Undefined, None, g.imageUrl) == Ok(g.imageUrl);
    var d := UpdateData(g.name, g.category, g.description, link, g.imageUrl);
    assert d == GiftData(g.name, g.category, g.description, g.productLink, g.imageUrl);
    assert UpdatePlan(g, EmptyEdit, None, isUrl) == Write(d);
    UpdateWithSameValues(t, id, d);
  }

  /** A normalised gift's own values pass validation. */
  lemma EmptyEditIsValid(g: Gift, isUrl: string -> bool, link: Json)
    requires Normalised(g, isUrl)
    requires link == if g.productLink.Some? then Str(g.productLink.value) else Null
    ensures Validate(GiftFields(Str(g.name), Str(g.category), Str(g.description), link, Undefined), isUrl) == Ok([])
  {
    if g.productLink.Some? {
      assert Trim(g.productLink.value) != "" by {
        assert g.productLink.value[0] == Trim(g.productLink.value)[0];
      }
    }
    assert FieldsValid(GiftFields(Str(g.name), Str(g.category), Str(g.description), link, Undefined), isUrl);
  }

  // ------------------------------------------------------------ deleteGift

  const DeletedMessage := "Presente removido com sucesso"
  const DeleteFailedMessage := "Erro ao remover presente"

  /** `deleteGift`: 404 for an unknown id, otherwise the row is gone; nothing else changes. */
  method DeleteGift(gifts: GiftTable, id: string, fault: Option<Error>) returns (resp: Response)
    requires gifts.Valid()
    modifies gifts
    ensures gifts.Valid() && gifts.nextId == old(gifts.nextId)
    ensures fault.Some? ==> resp == Fail(500, DeleteFailedMessage) && gifts.rows == old(gifts.rows)
    ensures fault.None? && RowKey(Str(id)) !in old(gifts.rows) ==>
      resp == Fail(404, NotFoundMessage) && gifts.rows == old(gifts.rows)
    ensures fault.None? && RowKey(Str(id)) in old(gifts.rows) ==>
      resp == Succeed(200, DeletedMessage, NoPayload) && gifts.rows == DeleteRow(old(gifts.rows), RowKey(Str(id)))
  {
    if fault.Some? {
      return Fail(500, DeleteFailedMessage);
    }
    var key := RowKey(Str(id));
    var existing := gifts.FindById(key);
    if existing.None? {
      return Fail(404, NotFoundMessage);
    }
    var _ := gifts.Delete(key);
    resp := Succeed(200, DeletedMessage, NoPayload);
  }

  // ------------------------------------------------------ updateGiftStatus

  const InvalidStatusMessage := "Status inválido. Use \"available\" ou \"reserved\""
  const ReserverRequiredMessage := "Nome da pessoa é obrigatório e deve ter pelo menos 3 caracteres"
  const MarkedReservedMessage := "Presente marcado como reservado"
  const ReleasedMessage := "Presente liberado"
  const StatusFailedMessage := "Erro ao atualizar status do presente"

  /** The status named in the body: exactly the strings "available" and "reserved". */
  function ParseStatus(v: Json): (r: Option<Status>)
    ensures r == Some(Available) <==> v == Str("available")
    ensures r == Some(Reserved) <==> v == Str("reserved")
  {
    if v == Str("available") then Some(Available)
    else if v == Str("reserved") then Some(Reserved)
    else None
  }

  /** The change `updateGiftStatus` applies: the status and the name recorded with it. */
  datatype StatusChange = StatusChange(status: Status, reservedBy: Option<string>)

  /**
   * The checks of `updateGiftStatus`, in order: the status value, before any
   * lookup; then the lookup (`lookup` is what `findById` gave, or the error it
   * raised); then, when reserving, a name of at least 3 characters once
   * trimmed. The name recorded is the trimmed one, and none when releasing.
   */
  function StatusDecision(status: Json, reservedBy: Json, lookup: Result<Option<Gift>, Error>): (r: Result<StatusChange, Response>)
    ensures ParseStatus(status).None? ==> r == Err(Fail(400, InvalidStatusMessage))
    ensures ParseStatus(status).Some? && lookup.Err? ==> r == Err(Fail(500, StatusFailedMessage))
    ensures ParseStatus(status).Some? && lookup == Ok(None) ==> r == Err(Fail(404, NotFoundMessage))
    ensures r.Ok? <==>
      && ParseStatus(status).Some? && lookup.Ok? && lookup.value.Some?
      && (status == Str("reserved") ==> reservedBy.Str? && |Trim(reservedBy.s)| >= 3)
    ensures r.Ok? ==> r.value.status == ParseStatus(status).value
    ensures r.Ok? && r.value.status == Available ==> r.value.reservedBy.None?
    ensures r.Ok? && r.value.status == Reserved ==>
      r.value.reservedBy == Some(Trim(reservedBy.s)) && |r.value.reservedBy.value| >= 3
    ensures status == Str("reserved") && lookup.Ok? && lookup.value.Some? && TrimThrows(reservedBy) ==>
      r == Err(Fail(500, StatusFailedMessage))
    ensures status == Str("reserved") && lookup.Ok? && lookup.value.Some? && !TrimThrows(reservedBy)
            && !(reservedBy.Str? && |Trim(reservedBy.s)| >= 3) ==>
      r == Err(Fail(400, ReserverRequiredMessage))
  {
    match ParseStatus(status)
    case None => Err(Fail(400, InvalidStatusMessage))
    case Some(s) =>
      if lookup.Err? then Err(Fail(500, StatusFailedMessage))
      else if lookup.value.None? then Err(Fail(404, NotFoundMessage))
      else if s == Available then Ok(StatusChange(Available, None))
      else if !Truthy(reservedBy) then Err(Fail(400, ReserverRequiredMessage))
      else if !reservedBy.Str? then Err(Fail(500, StatusFailedMessage))
      else if |Trim(reservedBy.s)| < 3 then Err(Fail(400, ReserverRequiredMessage))
      else Ok(StatusChange(Reserved, Some(Trim(reservedBy.s))))
  }

  /** `updateGiftStatus`: applies the decided change with `updateStatus`, or answers the refusal and changes nothing. */
  method UpdateGiftStatus(gifts: GiftTable, id: string, status: Json, reservedBy: Json, now: Timestamp, fault: Option<Error>)
    returns (resp: Response)
    requires gifts.Valid()
    modifies gifts
    ensures gifts.Valid() && gifts.nextId == old(gifts.nextId)
    ensures var lookup := if fault.Some? then Err(fault.value) else Ok(old(gifts.FindById(RowKey(Str(id)))));
      match StatusDecision(status, reservedBy, lookup)
      case Err(refusal) => resp == refusal && gifts.rows == old(gifts.rows)
      case Ok(change) =>
        && gifts.rows == SetStatus(old(gifts.rows), RowKey(Str(id)), change.status, change.reservedBy, now)
        && resp == Succeed(200, if change.status == Reserved then MarkedReservedMessage else ReleasedMessage,
                           OneGift(gifts.FindById(RowKey(Str(id)))))
  {
    var key := RowKey(Str(id));
    var lookup: Result<Option<Gift>, Error> := if fault.Some? then Err(fault.value) else Ok(gifts.FindById(key));
    var decision := StatusDecision(status, reservedBy, lookup);
    if decision.Err? {
      return decision.error;
    }
    var change := decision.value;
    var g := gifts.UpdateStatus(key, change.status, change.reservedBy, now);
    resp := Succeed(200, if change.status == Reserved then MarkedReservedMessage else ReleasedMessage, OneGift(g));
  }

  // ------------------------------------------------------ updateReservedBy

  const OnlyReservedMessage := "Apenas presentes reservados podem ter o nome atualizado"
  const NameRemovedMessage := "Nome removido com sucesso"
  const NameUpdatedMessage := "Nome atualizado com sucesso"
  const NameFailedMessage := "Erro ao atualizar nome"

  /**
   * The checks of `updateReservedBy`, in order: the lookup (404), the gift
   * being reserved (400), then the name: missing or blank removes it, fewer
   * than 3 characters once trimmed is refused, otherwise the trimmed name.
   */
  function NameDecision(reservedBy: Json, lookup: Result<Option<Gift>, Error>): (r: Result<Option<string>, Response>)
    ensures lookup.Err? ==> r == Err(Fail(500, NameFailedMessage))
    ensures lookup == Ok(None) ==> r == Err(Fail(404, NotFoundMessage))
    ensures lookup.Ok? && lookup.value.Some? && lookup.value.value.status != Reserved ==> r == Err(Fail(400, OnlyReservedMessage))
    ensures r.Ok? <==>
      && lookup.Ok? && lookup.value.Some? && lookup.value.value.status == Reserved
      && !TrimThrows(reservedBy) && !(reservedBy.Str? && 0 < |Trim(reservedBy.s)| < 3)
    ensures r.Ok? && r.value.None? <==> r.Ok? && !(reservedBy.Str? && Trim(reservedBy.s) != "")
    ensures r.Ok? && r.value.Some? ==> reservedBy.Str? && r.value.value == Trim(reservedBy.s) && |r.value.value| >= 3
    ensures lookup.Ok? && lookup.value.Some? && lookup.value.value.status == Reserved && TrimThrows(reservedBy) ==>
      r == Err(Fail(500, NameFailedMessage))
  {
    if lookup.Err? then Err(Fail(500, NameFailedMessage))
    else if lookup.value.None? then Err(Fail(404, NotFoundMessage))
    else if lookup.value.value.status != Reserved then Err(Fail(400, OnlyReservedMessage))
    else if !Truthy(reservedBy) then Ok(None)
    else if !reservedBy.Str? then Err(Fail(500, NameFailedMessage))
    else if Trim(reservedBy.s) == "" then Ok(None)
    else if |Trim(reservedBy.s)| < 3 then Err(Fail(400, GiftController.ShortGuestNameMessage))
    else Ok(Some(Trim(reservedBy.s)))
  }

  /** `updateReservedBy`: replaces or removes the name on a reserved gift, leaving its status and time. */
  method UpdateReservedBy(gifts: GiftTable, id: string, reservedBy: Json, fault: Option<Error>) returns (resp: Response)
    requires gifts.Valid()
    modifies gifts
    ensures gifts.Valid() && gifts.nextId == old(gifts.nextId)
    ensures var lookup := if fault.Some? then Err(fault.value) else Ok(old(gifts.FindById(RowKey(Str(id)))));
      match NameDecision(reservedBy, lookup)
      case Err(refusal) => resp == refusal && gifts.rows == old(gifts.rows)
      case Ok(name) =>
        && gifts.rows == SetReservedBy(old(gifts.rows), RowKey(Str(id)), name)
        && resp == Succeed(200, if name.None? then NameRemovedMessage else NameUpdatedMessage,
                           OneGift(gifts.FindById(RowKey(Str(id)))))
  {
    var key := RowKey(Str(id));
    var lookup: Result<Option<Gift>, Error> := if fault.Some? then Err(fault.value) else Ok(gifts.FindById(key));
    var decision := NameDecision(reservedBy, lookup);
    if decision.Err? {
      return decision.error;
    }
    var g := gifts.UpdateReservedBy(key, decision.value);
    resp := Succeed(200, if decision.value.None? then NameRemovedMessage else NameUpdatedMessage, OneGift(g));
  }

  /** An accepted name change on a reserved gift keeps it reserved with its reservation time. */
  lemma NameChangeKeepsReservation(t: Table, id: int, reservedBy: Json)
    requires id in t && NameDecision(reservedBy, Ok(Some(t[id]))).Ok?
    ensures var t' := SetReservedBy(t, id, NameDecision(reservedBy, Ok(Some(t[id]))).value);
      t'[id].status == Reserved && t'[id].reservedAt == t[id].reservedAt
      && t'[id].reservedBy == NameDecision(reservedBy, Ok(Some(t[id]))).value
  {
  }
}
