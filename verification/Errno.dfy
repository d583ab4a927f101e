/** Error codes and results shared by the models. */
module Errno {

  datatype Error =
    | EINTR | EIO | EBADF | EAGAIN | ENOMEM | EACCES | EFAULT | EBUSY | EEXIST | ENOENT | EINVAL | EFBIG | ENOSPC
    | EPIPE | EOVERFLOW | EOPNOTSUPP | ETIMEDOUT | EUCLEAN | ERESTARTSYS

  datatype Option<+T> = None | Some(value: T)

  datatype Result<+T> = Ok(value: T) | Err(error: Error)
}
