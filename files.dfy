/** A browser `File` as the upload form and the service see it. */
module Files {
  /**
   * `name`, `size` (bytes) and `type` of the file, and the base64 text that
   * `FileReader.readAsDataURL` yields for it after the comma.
   */
  datatype ImageFile = ImageFile(name: string, size: nat, mimeType: string, base64: string)
}
