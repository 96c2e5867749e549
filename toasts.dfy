/** The toast notifications the pages raise: title, description and whether
    the destructive (error) variant is used. */
module Toasts {
  datatype Toast = Toast(title: string, description: string, destructive: bool)
}
