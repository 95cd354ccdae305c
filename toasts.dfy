/** The notices the desktop window shows (`show_info`, `show_error`). */
module Toasts {
  datatype Toast = Info(text: string) | Alert(text: string)
}
