/** What a screen hands to the platform instead of state: an alert shown to
    the user or a navigation to another route. */
module Ui {

  datatype UiEvent =
    | NoEvent
      /** `Alert.alert(title, message)`; a one-argument alert has message "". */
    | Alert(title: string, message: string)
      /** `router.replace(route)`. */
    | Navigate(route: string)
}
