/** The user-visible effects the screens produce. */
module Ui {

  /** `Alert.alert(title, message)`. */
  datatype Alert = Alert(title: string, message: string)

  /** A 2xx status: axios's default `validateStatus` and fetch's
      `response.ok` both accept exactly these. */
  predicate IsSuccessStatus(status: int) {
    200 <= status <= 299
  }
}
