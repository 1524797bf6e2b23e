/** The modal layout of form.go: each portal form field becomes one Discord
    text input, alone in its own actions row. */
module Form {
  import opened Types

  /** `discordgo.TextInputShort`. */
  const TextInputShort: nat := 1

  /** The parts of a `discordgo.TextInput` the bot sets; `style` 0 is the
      zero value. */
  datatype TextInput = TextInput(customId: string, labelText: string, placeholder: string, style: nat,
                                 required: bool, minLength: nat, maxLength: nat)

  /** The zero `discordgo.TextInput`. */
  const ZeroInput: TextInput := TextInput("", "", "", 0, false, 0, 0)

  /** A `discordgo.ActionsRow` of text inputs. */
  datatype ActionsRow = ActionsRow(components: seq<TextInput>)

  /** The input id the portal uses for the plate confirmation field. */
  const PlateConfirmId: string := "vehicleLicensePlateConfirm"

  /** The `switch` of `FormToComponents`: the four known vehicle fields get
      fixed labels and length bounds, the plate confirmation is skipped
      (the component stays zero), and any other field is taken as is. */
  function ComponentFor(field: Field): (c: TextInput)
    ensures c == ZeroInput <==> field.id == PlateConfirmId
    ensures field.id != PlateConfirmId ==>
              && c.customId == field.id && c.required && c.style == TextInputShort
              && 1 <= c.minLength <= c.maxLength <= 100
    ensures field.id == "vehicleApt" ==> c.minLength == 1 && c.maxLength == 5
    ensures field.id == "vehicleMake" ==> c.minLength == 4 && c.maxLength == 15 && c.placeholder == "Honda"
    ensures field.id == "vehicleModel" ==> c.minLength == 1 && c.maxLength == 16 && c.placeholder == "Accord"
    ensures field.id == "vehicleLicensePlate" ==> c.minLength == 1 && c.maxLength == 9 && c.placeholder == "ABC123"
    ensures field.id !in {"vehicleApt", "vehicleMake", "vehicleModel", "vehicleLicensePlate", PlateConfirmId} ==>
              c == TextInput(field.id, field.text, "", TextInputShort, true, 1, 100)
  {
    match field.id
    case "vehicleApt" =>
      TextInput("vehicleApt", "Apartment Number", "", TextInputShort, true, 1, 5)
    case "vehicleMake" =>
      TextInput("vehicleMake", "Make", "Honda", TextInputShort, true, 4, 15)
    case "vehicleModel" =>
      TextInput("vehicleModel", "Model", "Accord", TextInputShort, true, 1, 16)
    case "vehicleLicensePlate" =>
      TextInput("vehicleLicensePlate", "License Plate", "ABC123", TextInputShort, true, 1, 9)
    case "vehicleLicensePlateConfirm" =>
      ZeroInput
    case _ =>
      TextInput(field.id, field.text, "", TextInputShort, true, 1, 100)
  }

  /** `FormToComponents`: one row per field, in field order, each holding
      that field's component. */
  method FormToComponents(fields: seq<Field>) returns (rows: seq<ActionsRow>)
    ensures |rows| == |fields|
    ensures forall i :: 0 <= i < |fields| ==> rows[i] == ActionsRow([ComponentFor(fields[i])])
    ensures forall i :: 0 <= i < |fields| && fields[i].id != PlateConfirmId ==>
              rows[i].components[0].customId == fields[i].id
  {
    rows := [];
    for i := 0 to |fields|
      invariant |rows| == i
      invariant forall j :: 0 <= j < i ==> rows[j] == ActionsRow([ComponentFor(fields[j])])
    {
      var component := ComponentFor(fields[i]);
      rows := rows + [ActionsRow([component])];
    }
  }
}
