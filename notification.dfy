/** The application's notification object. It overrides neither equality nor hashing, so
    the registries tell two notifications apart by reference even when their fields agree. */
module Notifications {
  import opened Wrappers

  /** A button: its caption and the action identifier reported when it is clicked. */
  datatype Button = Button(title: string, actionId: string)

  /** The auto-properties are mutable fields: a setter stores any value (absent, empty or not)
      and the getter returns it unchanged. `Buttons` is a list that callers append to. */
  class Notification {
    var title: Option<string>
    var body: Option<string>
    var bodyImagePath: Option<string>
    var bodyImageAltText: string
    var buttons: seq<Button>

    /** A new notification has no title, body or image, the alt text "Image" and no buttons. */
    constructor ()
      ensures title == None && body == None && bodyImagePath == None
      ensures bodyImageAltText == "Image"
      ensures buttons == []
    {
      title := None;
      body := None;
      bodyImagePath := None;
      bodyImageAltText := "Image";
      buttons := [];
    }

    /** `Buttons.Add`: appends one button and keeps the earlier ones in order. */
    method AddButton(buttonTitle: string, actionId: string)
      modifies this`buttons
      ensures buttons == old(buttons) + [Button(buttonTitle, actionId)]
    {
      buttons := buttons + [Button(buttonTitle, actionId)];
    }
  }

  /** What a caller can rely on: defaults, get-after-set for absent and empty strings,
      button order, and identity by reference. */
  method NotificationUsage()
  {
    var n := new Notification();
    assert n.bodyImageAltText == "Image" && n.buttons == [];

    n.title := None;
    assert n.title == None;
    n.title := Some("");
    n.body := Some("Done");
    assert n.title == Some("") && n.body == Some("Done");

    n.AddButton("Yes", "action_yes");
    n.AddButton("No", "action_no");
    assert n.buttons == [Button("Yes", "action_yes"), Button("No", "action_no")];

    var twin := new Notification();
    twin.title := Some("");
    twin.body := Some("Done");
    assert n != twin;
  }
}
